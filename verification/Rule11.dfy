/** Scoring rulings on Rule 11 motions against fixtures, and adding the scores up. */
module Rule11 {
  import opened Text

  // ----- fixtures -----

  /** The ruling a fixture asks for. */
  datatype Expected = Expected(granted: bool, sanctionType: string, sanctionAmount: real, reasonTags: seq<string>)

  datatype Fixture = Fixture(
    id: string, tier: int, issueFamily: string, movant: string, targetParty: string, challengedFiling: string,
    filingText: string, noticeText: string, motionText: string, oppositionText: string,
    expected: Expected)

  function LowerCase(s: string): string {
    seq(|s|, i requires 0 <= i < |s| => Lower(s[i]))
  }

  function NormalizeParty(s: string): string {
    var party := LowerCase(Trim(s));
    if party == "plaintiff" || party == "defendant" then party else ""
  }

  predicate ValidGrantedSanctionType(value: string) {
    Trim(value) in {"admonition", "non_monetary_directive", "monetary_penalty", "fee_shift"}
  }

  predicate ValidExpectedSanctionType(value: string) {
    value == "none" || ValidGrantedSanctionType(value)
  }

  predicate IsMonetary(value: string) {
    Trim(value) in {"monetary_penalty", "fee_shift"}
  }

  /** What Validate accepts. */
  predicate Valid(f: Fixture) {
    && !Blank(f.id) && f.tier >= 1 && !Blank(f.issueFamily)
    && NormalizeParty(f.movant) != "" && NormalizeParty(f.targetParty) != ""
    && NormalizeParty(f.movant) != NormalizeParty(f.targetParty)
    && !Blank(f.challengedFiling) && !Blank(f.filingText) && !Blank(f.noticeText)
    && !Blank(f.motionText) && !Blank(f.oppositionText)
    && ValidExpectation(f.expected) && f.expected.reasonTags != []
  }

  /** A granted motion has one of the four sanctions, a denied one exactly none, and only money has an amount. */
  predicate ValidExpectation(e: Expected) {
    && ValidExpectedSanctionType(e.sanctionType)
    && (e.granted <==> e.sanctionType != "none")
    && (if IsMonetary(e.sanctionType) then e.sanctionAmount > 0.0 else e.sanctionAmount == 0.0)
  }

  // ----- responses -----

  /**
   * A value in a tool's payload; a json.Number with its readings as an integer and as a float.  As an integer
   * a number out of range reads as the nearest 64-bit integer, since intField ignores the error of Int64; asInt
   * is None only for a number that is not written as an integer.
   */
  datatype Value =
    | Null
    | Bool(b: bool)
    | Int(n: int)
    | Float(r: real)
    | Number(asInt: Option<int>, asFloat: Option<real>)
    | Str(s: string)
    | Other

  type Payload = map<string, Value>

  datatype ToolCall = ToolCall(name: string, argumentsError: string, arguments: Option<Payload>)

  const TOOL := "decide_rule11_motion"

  /** float64 to int truncates towards zero. */
  function Truncated(r: real): int {
    if r >= 0.0 then r.Floor else -((-r).Floor)
  }

  function IntField(p: Payload, key: string): int {
    if key !in p then 0
    else
      match p[key]
      case Int(n) => n
      case Float(r) => Truncated(r)
      case Number(asInt, _) => if asInt.Some? then asInt.value else 0
      case _ => 0
  }

  function StringField(p: Payload, key: string): string {
    if key in p && p[key].Str? then Trim(p[key].s) else ""
  }

  /** The string, and whether the key holds anything. */
  function StringFieldPresence(p: Payload, key: string): (string, bool) {
    if key !in p || p[key].Null? then ("", false)
    else if p[key].Str? then (p[key].s, true)
    else ("", true)
  }

  datatype Amount = Absent | Present(r: real) | Malformed

  function OptionalFloatField(p: Payload, key: string): Amount {
    if key !in p then Absent
    else
      match p[key]
      case Null => Absent
      case Int(n) => Present(n as real)
      case Float(r) => Present(r)
      case Number(_, asFloat) => if asFloat.Some? then Present(asFloat.value) else Malformed
      case _ => Malformed
  }

  // ----- scoring -----

  /** Which expected tags a reasoning matches; the matching itself is not part of this model. */
  type Matcher = (string, seq<string>) -> seq<string>

  /** Why a response cannot be scored. */
  datatype Problem =
    | NoProblem
    | MissingToolCall | MultipleToolCalls | WrongTool | MalformedArguments | MissingArguments
    | WrongMotionIndex | MalformedGranted | MalformedSanctionAmount | MissingSanctionDetail | EmptyReasoning
    | GrantedMissingSanctionType | InvalidSanctionType | EmptySanctionDetail
    | MonetaryMissingAmount | MonetaryNonpositiveAmount | NonMonetaryWithAmount
    | DeniedWithSanctionType | DeniedWithSanctionAmount | DeniedWithSanctionDetail

  /** What the summary tables are keyed by. */
  datatype Labels = Labels(tier: int, issueFamily: string, movant: string)

  /** The ruling as far as it could be read. */
  datatype Ruling = Ruling(
    granted: Option<bool>, sanctionType: string, sanctionAmount: Option<real>, sanctionDetail: string,
    reasoning: string)

  datatype Score = Score(
    grantCorrect: bool, sanctionCorrect: bool, outcomeCorrect: bool, matchedReasonTags: seq<string>,
    reasonCorrect: bool)

  datatype Result = Result(labels: Labels, expected: Expected, ruling: Ruling, problem: Problem, score: Score)

  const NO_RULING := Ruling(None, "", None, "", "")
  const NO_SCORE := Score(false, false, false, [], false)

  function Abs(r: real): real {
    if r >= 0.0 then r else -r
  }

  predicate SanctionCorrect(e: Expected, r: Ruling) {
    if e.sanctionType == "none" then
      && r.sanctionType == "" && r.sanctionDetail == ""
      && (r.sanctionAmount.None? || Abs(r.sanctionAmount.value) <= 0.01)
    else
      && Trim(r.sanctionType) == Trim(e.sanctionType) && r.sanctionDetail != ""
      && if IsMonetary(e.sanctionType)
         then r.sanctionAmount.Some? && Abs(r.sanctionAmount.value - e.sanctionAmount) <= 0.01
         else r.sanctionAmount.None? || Abs(r.sanctionAmount.value) <= 0.01
  }

  function Rescored(r: Result, matcher: Matcher): Result {
    if r.problem != NoProblem || r.ruling.granted.None? then r
    else
      var grantCorrect := r.ruling.granted.value == r.expected.granted;
      var sanctionCorrect := SanctionCorrect(r.expected, r.ruling);
      var matched := matcher(r.ruling.reasoning + " " + r.ruling.sanctionDetail, r.expected.reasonTags);
      r.(score := Score(grantCorrect, sanctionCorrect, grantCorrect && sanctionCorrect, matched, |matched| > 0))
  }

  /** What is wrong with the calls, of which there must be one to the right tool. */
  function CallProblem(calls: seq<ToolCall>): Problem {
    if |calls| == 0 then MissingToolCall
    else if |calls| != 1 then MultipleToolCalls
    else if Trim(calls[0].name) != TOOL then WrongTool
    else if !Blank(calls[0].argumentsError) then MalformedArguments
    else if calls[0].arguments.None? then MissingArguments
    else NoProblem
  }

  function GrantedProblem(r: Ruling, hasType: bool): Problem {
    if !hasType || r.sanctionType == "" then GrantedMissingSanctionType
    else if !ValidGrantedSanctionType(r.sanctionType) then InvalidSanctionType
    else if r.sanctionDetail == "" then EmptySanctionDetail
    else if IsMonetary(r.sanctionType) then
      if r.sanctionAmount.None? then MonetaryMissingAmount
      else if r.sanctionAmount.value <= 0.0 then MonetaryNonpositiveAmount
      else NoProblem
    else if r.sanctionAmount.Some? && r.sanctionAmount.value != 0.0 then NonMonetaryWithAmount
    else NoProblem
  }

  function DeniedProblem(r: Ruling, hasType: bool): Problem {
    if hasType && r.sanctionType != "" then DeniedWithSanctionType
    else if r.sanctionAmount.Some? && r.sanctionAmount.value != 0.0 then DeniedWithSanctionAmount
    else if r.sanctionDetail != "" then DeniedWithSanctionDetail
    else NoProblem
  }

  /** The ruling that a payload holds, as far as the checks go, and where they stop. */
  function ReadRuling(p: Payload): (Ruling, Problem) {
    if IntField(p, "motion_index") != 0 then (NO_RULING, WrongMotionIndex)
    else if "granted" !in p || !p["granted"].Bool? then (NO_RULING, MalformedGranted)
    else
      var (sanctionType, hasType) := StringFieldPresence(p, "sanction_type");
      ReadAmount(NO_RULING.(granted := Some(p["granted"].b), sanctionType := Trim(sanctionType)), hasType, p)
  }

  function ReadAmount(r: Ruling, hasType: bool, p: Payload): (Ruling, Problem) {
    match OptionalFloatField(p, "sanction_amount")
    case Malformed => (r, MalformedSanctionAmount)
    case Absent => ReadDetail(r, hasType, p)
    case Present(amount) => ReadDetail(r.(sanctionAmount := Some(amount)), hasType, p)
  }

  function ReadDetail(r: Ruling, hasType: bool, p: Payload): (Ruling, Problem) {
    var (detail, hasDetail) := StringFieldPresence(p, "sanction_detail");
    if !hasDetail then (r, MissingSanctionDetail)
    else
      var filled := r.(sanctionDetail := Trim(detail), reasoning := StringField(p, "reasoning"));
      (filled, RulingProblem(filled, hasType))
  }

  function RulingProblem(r: Ruling, hasType: bool): Problem {
    if r.reasoning == "" then EmptyReasoning
    else if r.granted == Some(true) then GrantedProblem(r, hasType)
    else DeniedProblem(r, hasType)
  }

  function Scored(f: Fixture, calls: seq<ToolCall>, matcher: Matcher): Result {
    var labels := Labels(f.tier, Trim(f.issueFamily), NormalizeParty(f.movant));
    var expected := f.expected.(sanctionType := Trim(f.expected.sanctionType));
    var problem := CallProblem(calls);
    if problem != NoProblem then Result(labels, expected, NO_RULING, problem, NO_SCORE)
    else
      var (ruling, found) := ReadRuling(calls[0].arguments.value);
      var r := Result(labels, expected, ruling, found, NO_SCORE);
      if found != NoProblem then r else Rescored(r, matcher)
  }

  // ----- the dry run -----

  function DryRunDetail(e: Expected): string {
    if e.granted then "gold sanction: " + Trim(e.sanctionType) else ""
  }

  function DryRunReasoning(e: Expected): string {
    "gold tags: " + Join(e.reasonTags, ", ")
  }

  function DryRunAmount(e: Expected): real {
    if IsMonetary(e.sanctionType) then e.sanctionAmount else 0.0
  }

  function DryRunPayload(e: Expected): Payload {
    var p := map[
      "motion_index" := Int(0), "granted" := Bool(e.granted), "sanction_detail" := Str(DryRunDetail(e)),
      "reasoning" := Str(DryRunReasoning(e))];
    if !e.granted then p
    else p["sanction_type" := Str(Trim(e.sanctionType))][
           "sanction_amount" := if IsMonetary(e.sanctionType) then Float(e.sanctionAmount) else Int(0)]
  }

  function DryRunResponse(f: Fixture): seq<ToolCall> {
    [ToolCall(TOOL, "", Some(DryRunPayload(f.expected)))]
  }

  /** The dry run's payload, as the scorer reads it. */
  ghost predicate ReadsAs(p: Payload, e: Expected) {
    && IntField(p, "motion_index") == 0 && "granted" in p && p["granted"] == Bool(e.granted)
    && StringFieldPresence(p, "sanction_detail") == (DryRunDetail(e), true)
    && StringField(p, "reasoning") == Trim(DryRunReasoning(e))
    && StringFieldPresence(p, "sanction_type") == (if e.granted then (Trim(e.sanctionType), true) else ("", false))
    && OptionalFloatField(p, "sanction_amount") == (if e.granted then Present(DryRunAmount(e)) else Absent)
  }

  lemma DryRunReads(e: Expected)
    ensures ReadsAs(DryRunPayload(e), e)
  {
    assert "sanction_type" != "sanction_amount" && "sanction_type" != "sanction_detail";
    assert "sanction_amount" != "sanction_detail";
  }

  /** The ruling the dry run makes. */
  function DryRunRuling(e: Expected): Ruling {
    Ruling(Some(e.granted), if e.granted then Trim(e.sanctionType) else "",
           if e.granted then Some(DryRunAmount(e)) else None, Trim(DryRunDetail(e)), Trim(DryRunReasoning(e)))
  }

  lemma DryRunRead(p: Payload, e: Expected)
    requires ReadsAs(p, e)
    ensures ReadRuling(p) == (DryRunRuling(e), RulingProblem(DryRunRuling(e), e.granted))
  {
    if e.granted {
      TrimEnds(e.sanctionType);
    } else {
      assert Trim("") == "";
    }
  }

  lemma DryRunHasNoProblem(e: Expected)
    requires ValidExpectation(e)
    ensures RulingProblem(DryRunRuling(e), e.granted) == NoProblem
    ensures DryRunRuling(e).sanctionDetail == "" <==> !e.granted
  {
    TrimEnds(DryRunReasoning(e));
    if e.granted {
      TrimEnds(e.sanctionType);
      TrimEnds(DryRunDetail(e));
    }
  }

  lemma DryRunSanctionCorrect(e: Expected)
    requires ValidExpectation(e)
    ensures SanctionCorrect(e.(sanctionType := Trim(e.sanctionType)), DryRunRuling(e))
  {
    DryRunHasNoProblem(e);
    TrimEnds(e.sanctionType);
    TrimNothing("none");
  }

  lemma DryRunCall(f: Fixture)
    ensures CallProblem(DryRunResponse(f)) == NoProblem
  {
    TrimNothing(TOOL);
    assert Blank("");
  }

  /** Every fixture that Validate accepts has a dry run that passes all checks with the correct outcome. */
  lemma DryRunPasses(f: Fixture, matcher: Matcher)
    requires Valid(f)
    ensures
      var r := Scored(f, DryRunResponse(f), matcher);
      && r.problem == NoProblem && r.ruling.granted == Some(f.expected.granted)
      && r.score.grantCorrect && r.score.sanctionCorrect && r.score.outcomeCorrect
  {
    DryRunPassesFor(f, matcher);
  }

  lemma DryRunPassesFor(f: Fixture, matcher: Matcher)
    requires ValidExpectation(f.expected)
    ensures
      var r := Scored(f, DryRunResponse(f), matcher);
      && r.problem == NoProblem && r.ruling == DryRunRuling(f.expected)
      && r.score.grantCorrect && r.score.sanctionCorrect && r.score.outcomeCorrect
  {
    DryRunCall(f);
    DryRunReads(f.expected);
    DryRunRead(DryRunPayload(f.expected), f.expected);
    DryRunHasNoProblem(f.expected);
    DryRunSanctionCorrect(f.expected);
  }

  // ----- what holds of every result -----

  /** The flags of a result without a problem say what they are named after. */
  predicate Clean(r: Result) {
    r.problem == NoProblem ==>
      && r.ruling.granted.Some? && r.score.grantCorrect == (r.ruling.granted.value == r.expected.granted)
      && r.score.sanctionCorrect == SanctionCorrect(r.expected, r.ruling)
      && r.score.outcomeCorrect == (r.score.grantCorrect && r.score.sanctionCorrect)
  }

  lemma RulingIsRead(p: Payload)
    ensures ReadRuling(p).1 == NoProblem ==> ReadRuling(p).0.granted.Some?
  {
  }

  lemma ScoredIsClean(f: Fixture, calls: seq<ToolCall>, matcher: Matcher)
    ensures Clean(Scored(f, calls, matcher))
  {
    if CallProblem(calls) == NoProblem {
      RulingIsRead(calls[0].arguments.value);
    }
  }

  /** Scoring a stored result again changes nothing. */
  lemma RescoreChangesNothing(f: Fixture, calls: seq<ToolCall>, matcher: Matcher)
    ensures Rescored(Scored(f, calls, matcher), matcher) == Scored(f, calls, matcher)
  {
  }

  /** Once is as good as twice; and whatever was stored, the flags are right behind it if there was a ruling. */
  lemma RescoreTwice(r: Result, matcher: Matcher)
    ensures Rescored(Rescored(r, matcher), matcher) == Rescored(r, matcher)
    ensures Clean(Rescored(r, matcher)) <==> r.problem != NoProblem || r.ruling.granted.Some?
  {
  }

  /** A motion that should be denied is never scored as denied with the wrong sanction: that is a problem. */
  lemma DeniedIsNeverMismatched(f: Fixture, calls: seq<ToolCall>, matcher: Matcher)
    requires ValidExpectation(f.expected) && !f.expected.granted
    ensures
      var r := Scored(f, calls, matcher);
      r.problem == NoProblem && r.score.grantCorrect ==> r.score.outcomeCorrect
  {
    TrimNothing("none");
    if CallProblem(calls) == NoProblem {
      DeniedHasNoSanction(calls[0].arguments.value);
    }
  }

  lemma DeniedHasNoSanction(p: Payload)
    ensures
      var (ruling, problem) := ReadRuling(p);
      problem == NoProblem && ruling.granted == Some(false) ==>
        && ruling.sanctionType == "" && ruling.sanctionDetail == ""
        && (ruling.sanctionAmount.None? || ruling.sanctionAmount.value == 0.0)
  {
    assert Trim("") == "";
  }
}
