/** What a ruling must look like to be scored, and when it is correct, in terms of the fields of the tool call. */
module Rule11Spec {
  import opened Text
  import opened Rule11
  import Summary = Rule11Summary

  // ----- the fields of a payload -----

  /** The text of a field without white space around it; "" when it is missing or no text. */
  function TextIn(p: Payload, key: string): string {
    if key in p && p[key].Str? then Trim(p[key].s) else ""
  }

  predicate Missing(p: Payload, key: string) {
    key !in p || p[key].Null?
  }

  predicate IsAmount(v: Value) {
    v.Int? || v.Float? || (v.Number? && v.asFloat.Some?)
  }

  function AmountIn(p: Payload): Option<real> {
    if "sanction_amount" !in p then None
    else
      match p["sanction_amount"]
      case Int(n) => Some(n as real)
      case Float(r) => Some(r)
      case Number(_, asFloat) => asFloat
      case _ => None
  }

  /** The index that a value names: the integer part of a number, and 0 for anything else. */
  predicate NamesIndex(p: Payload, key: string, n: int) {
    if key in p && p[key].Int? then n == p[key].n
    else if key in p && p[key].Float? then
      if p[key].r >= 0.0 then n as real <= p[key].r < n as real + 1.0 else n as real - 1.0 < p[key].r <= n as real
    else if key in p && p[key].Number? && p[key].asInt.Some? then n == p[key].asInt.value
    else n == 0
  }

  lemma IndexIs(p: Payload, key: string, n: int)
    ensures NamesIndex(p, key, n) <==> IntField(p, key) == n
  {
  }

  predicate Grants(p: Payload) {
    "granted" in p && p["granted"] == Bool(true)
  }

  predicate Denies(p: Payload) {
    "granted" in p && p["granted"] == Bool(false)
  }

  predicate ForMoney(sanction: string) {
    sanction == "monetary_penalty" || sanction == "fee_shift"
  }

  predicate IsSanction(sanction: string) {
    sanction == "admonition" || sanction == "non_monetary_directive" || ForMoney(sanction)
  }

  predicate NoAmount(amount: Option<real>) {
    amount.None? || amount.value == 0.0
  }

  // ----- which check fails -----

  /** Checks in their order: what is reported when one fails, and whether it does. */
  datatype Checks = Passed | Check(problem: Problem, fails: bool, rest: Checks)

  /** The first check that fails decides. */
  function Verdict(checks: Checks): Problem {
    match checks
    case Passed => NoProblem
    case Check(problem, fails, rest) => if fails then problem else Verdict(rest)
  }

  function PayloadChecks(p: Payload): Checks {
    Check(WrongMotionIndex, !NamesIndex(p, "motion_index", 0),
    Check(MalformedGranted, !Grants(p) && !Denies(p),
    Check(MalformedSanctionAmount, !Missing(p, "sanction_amount") && !IsAmount(p["sanction_amount"]),
    Check(MissingSanctionDetail, Missing(p, "sanction_detail"),
    Check(EmptyReasoning, TextIn(p, "reasoning") == "",
    if Grants(p) then GrantChecks(TextIn(p, "sanction_type"), TextIn(p, "sanction_detail"), AmountIn(p))
    else DenialChecks(TextIn(p, "sanction_type"), TextIn(p, "sanction_detail"), AmountIn(p)))))))
  }

  /** A granted motion names one of the four sanctions, says something about it, and has an amount just for money. */
  function GrantChecks(sanction: string, detail: string, amount: Option<real>): Checks {
    Check(GrantedMissingSanctionType, sanction == "",
    Check(InvalidSanctionType, !IsSanction(sanction),
    Check(EmptySanctionDetail, detail == "",
    Check(MonetaryMissingAmount, ForMoney(sanction) && amount.None?,
    Check(MonetaryNonpositiveAmount, ForMoney(sanction) && amount.Some? && amount.value <= 0.0,
    Check(NonMonetaryWithAmount, !ForMoney(sanction) && !NoAmount(amount),
    Passed))))))
  }

  /** A denied motion has no sanction at all. */
  function DenialChecks(sanction: string, detail: string, amount: Option<real>): Checks {
    Check(DeniedWithSanctionType, sanction != "",
    Check(DeniedWithSanctionAmount, !NoAmount(amount),
    Check(DeniedWithSanctionDetail, detail != "",
    Passed)))
  }

  lemma VerdictOfThree(a: Problem, fa: bool, b: Problem, fb: bool, c: Problem, fc: bool, rest: Checks)
    ensures
      Verdict(Check(a, fa, Check(b, fb, Check(c, fc, rest))))
      == if fa then a else if fb then b else if fc then c else Verdict(rest)
  {
    assert Verdict(Check(c, fc, rest)) == if fc then c else Verdict(rest);
  }

  lemma FieldsAre(p: Payload)
    ensures StringField(p, "reasoning") == TextIn(p, "reasoning")
    ensures
      var (s, has) := StringFieldPresence(p, "sanction_type");
      Trim(s) == TextIn(p, "sanction_type") && (!has ==> TextIn(p, "sanction_type") == "")
    ensures
      var (s, has) := StringFieldPresence(p, "sanction_detail");
      Trim(s) == TextIn(p, "sanction_detail") && has == !Missing(p, "sanction_detail")
    ensures
      match OptionalFloatField(p, "sanction_amount")
      case Malformed => !Missing(p, "sanction_amount") && !IsAmount(p["sanction_amount"])
      case Absent => Missing(p, "sanction_amount") && AmountIn(p).None?
      case Present(r) => IsAmount(p["sanction_amount"]) && AmountIn(p) == Some(r)
  {
    assert Trim("") == "";
  }

  lemma SanctionsAre(sanction: string)
    requires Trim(sanction) == sanction
    ensures ValidGrantedSanctionType(sanction) <==> IsSanction(sanction)
    ensures IsMonetary(sanction) <==> ForMoney(sanction)
  {
  }

  lemma GrantVerdict(r: Ruling, hasType: bool)
    requires Trim(r.sanctionType) == r.sanctionType && (!hasType ==> r.sanctionType == "")
    ensures Verdict(GrantChecks(r.sanctionType, r.sanctionDetail, r.sanctionAmount)) == GrantedProblem(r, hasType)
  {
    SanctionsAre(r.sanctionType);
    var money, amount := ForMoney(r.sanctionType), r.sanctionAmount;
    var behind :=
      Check(MonetaryMissingAmount, money && amount.None?,
      Check(MonetaryNonpositiveAmount, money && amount.Some? && amount.value <= 0.0,
      Check(NonMonetaryWithAmount, !money && !NoAmount(amount),
      Passed)));
    VerdictOfThree(
      GrantedMissingSanctionType, r.sanctionType == "", InvalidSanctionType, !IsSanction(r.sanctionType),
      EmptySanctionDetail, r.sanctionDetail == "", behind);
    VerdictOfThree(
      MonetaryMissingAmount, money && amount.None?,
      MonetaryNonpositiveAmount, money && amount.Some? && amount.value <= 0.0,
      NonMonetaryWithAmount, !money && !NoAmount(amount), Passed);
  }

  lemma DenialVerdict(r: Ruling, hasType: bool)
    requires !hasType ==> r.sanctionType == ""
    ensures Verdict(DenialChecks(r.sanctionType, r.sanctionDetail, r.sanctionAmount)) == DeniedProblem(r, hasType)
  {
    VerdictOfThree(
      DeniedWithSanctionType, r.sanctionType != "", DeniedWithSanctionAmount, !NoAmount(r.sanctionAmount),
      DeniedWithSanctionDetail, r.sanctionDetail != "", Passed);
  }

  function RulingIn(p: Payload): Ruling {
    Ruling(
      Some(Grants(p)), TextIn(p, "sanction_type"), AmountIn(p), TextIn(p, "sanction_detail"), TextIn(p, "reasoning"))
  }

  lemma DecisionVerdict(p: Payload)
    ensures
      Verdict(
        if Grants(p) then GrantChecks(TextIn(p, "sanction_type"), TextIn(p, "sanction_detail"), AmountIn(p))
        else DenialChecks(TextIn(p, "sanction_type"), TextIn(p, "sanction_detail"), AmountIn(p)))
      == if Grants(p) then GrantedProblem(RulingIn(p), StringFieldPresence(p, "sanction_type").1)
         else DeniedProblem(RulingIn(p), StringFieldPresence(p, "sanction_type").1)
  {
    FieldsAre(p);
    TextInTrimmed(p, "sanction_type");
    GrantVerdict(RulingIn(p), StringFieldPresence(p, "sanction_type").1);
    DenialVerdict(RulingIn(p), StringFieldPresence(p, "sanction_type").1);
  }

  /** The five checks in front. */
  lemma PayloadVerdict(p: Payload)
    ensures
      Verdict(PayloadChecks(p))
      == if !NamesIndex(p, "motion_index", 0) then WrongMotionIndex
         else if !Grants(p) && !Denies(p) then MalformedGranted
         else if !Missing(p, "sanction_amount") && !IsAmount(p["sanction_amount"]) then MalformedSanctionAmount
         else if Missing(p, "sanction_detail") then MissingSanctionDetail
         else if TextIn(p, "reasoning") == "" then EmptyReasoning
         else if Grants(p) then GrantedProblem(RulingIn(p), StringFieldPresence(p, "sanction_type").1)
         else DeniedProblem(RulingIn(p), StringFieldPresence(p, "sanction_type").1)
  {
    DecisionVerdict(p);
    var decision :=
      if Grants(p) then GrantChecks(TextIn(p, "sanction_type"), TextIn(p, "sanction_detail"), AmountIn(p))
      else DenialChecks(TextIn(p, "sanction_type"), TextIn(p, "sanction_detail"), AmountIn(p));
    var noReason := TextIn(p, "reasoning") == "";
    var behind :=
      Check(MissingSanctionDetail, Missing(p, "sanction_detail"), Check(EmptyReasoning, noReason, decision));
    VerdictOfThree(
      WrongMotionIndex, !NamesIndex(p, "motion_index", 0), MalformedGranted, !Grants(p) && !Denies(p),
      MalformedSanctionAmount, !Missing(p, "sanction_amount") && !IsAmount(p["sanction_amount"]), behind);
    assert Verdict(Check(EmptyReasoning, noReason, decision)) == if noReason then EmptyReasoning else Verdict(decision);
  }

  /** A payload is read as its fields, unless a check fails; then the first that does is reported. */
  lemma PayloadRead(p: Payload)
    ensures ReadRuling(p).1 == Verdict(PayloadChecks(p))
    ensures ReadRuling(p).1 == NoProblem ==> ReadRuling(p).0 == RulingIn(p)
  {
    FieldsAre(p);
    IndexIs(p, "motion_index", 0);
    PayloadVerdict(p);
  }

  lemma TextInTrimmed(p: Payload, key: string)
    ensures Trim(TextIn(p, key)) == TextIn(p, key)
  {
    if key in p && p[key].Str? {
      TrimEnds(p[key].s);
    } else {
      assert Trim("") == "";
    }
  }

  /** One call of the one tool, with arguments that could be read. */
  function CallChecks(calls: seq<ToolCall>): Checks {
    Check(MissingToolCall, |calls| == 0,
    Check(MultipleToolCalls, |calls| > 1,
    Check(WrongTool, |calls| == 1 && Trim(calls[0].name) != "decide_rule11_motion",
    Check(MalformedArguments, |calls| == 1 && Trim(calls[0].argumentsError) != "",
    Check(MissingArguments, |calls| == 1 && calls[0].arguments.None?,
    Passed)))))
  }

  lemma CallVerdict(calls: seq<ToolCall>)
    ensures CallProblem(calls) == Verdict(CallChecks(calls))
  {
    var malformed, missing :=
      |calls| == 1 && Trim(calls[0].argumentsError) != "", |calls| == 1 && calls[0].arguments.None?;
    var last := Check(MissingArguments, missing, Passed);
    VerdictOfThree(
      MissingToolCall, |calls| == 0, MultipleToolCalls, |calls| > 1,
      WrongTool, |calls| == 1 && Trim(calls[0].name) != "decide_rule11_motion",
      Check(MalformedArguments, malformed, last));
    assert Verdict(last) == if missing then MissingArguments else NoProblem;
  }

  // ----- when a ruling is right -----

  predicate Near(a: real, b: real) {
    -0.01 <= a - b <= 0.01
  }

  /** The ruling that the fixture asks for, in the fields of the payload. */
  predicate RulesAsExpected(p: Payload, e: Expected) {
    && (Grants(p) <==> e.granted)
    && (e.granted ==>
          && TextIn(p, "sanction_type") == Trim(e.sanctionType)
          && (ForMoney(Trim(e.sanctionType)) ==>
                AmountIn(p).Some? && Near(AmountIn(p).value, e.sanctionAmount)))
  }

  /** What a grant or a denial that passes its checks says. */
  predicate Consistent(p: Payload) {
    var sanction, detail, amount := TextIn(p, "sanction_type"), TextIn(p, "sanction_detail"), AmountIn(p);
    && (Grants(p) || Denies(p)) && TextIn(p, "reasoning") != ""
    && (Grants(p) ==>
          && IsSanction(sanction) && detail != ""
          && (if ForMoney(sanction) then amount.Some? && amount.value > 0.0 else NoAmount(amount)))
    && (Denies(p) ==> sanction == "" && detail == "" && NoAmount(amount))
  }

  /** A granted motion without a problem, and a denied one. */
  lemma DecisionConsistent(r: Ruling, hasType: bool)
    requires Trim(r.sanctionType) == r.sanctionType && (!hasType ==> r.sanctionType == "")
    ensures
      GrantedProblem(r, hasType) == NoProblem ==>
        && IsSanction(r.sanctionType) && r.sanctionDetail != ""
        && (if ForMoney(r.sanctionType) then r.sanctionAmount.Some? && r.sanctionAmount.value > 0.0
            else NoAmount(r.sanctionAmount))
    ensures
      DeniedProblem(r, hasType) == NoProblem ==>
        r.sanctionType == "" && r.sanctionDetail == "" && NoAmount(r.sanctionAmount)
  {
    SanctionsAre(r.sanctionType);
  }

  lemma ScoredConsistent(p: Payload)
    requires ReadRuling(p).1 == NoProblem
    ensures Consistent(p)
  {
    PayloadRead(p);
    PayloadVerdict(p);
    HasTypeOrNone(p);
    TextInTrimmed(p, "sanction_type");
    DecisionConsistent(RulingIn(p), StringFieldPresence(p, "sanction_type").1);
  }

  lemma HasTypeOrNone(p: Payload)
    ensures !StringFieldPresence(p, "sanction_type").1 ==> TextIn(p, "sanction_type") == ""
  {
  }

  /** A ruling that passed its checks has the right outcome exactly when it rules as expected. */
  lemma OutcomeOf(p: Payload, e: Expected)
    requires Consistent(p) && ValidExpectation(e)
    ensures
      var trimmed := e.(sanctionType := Trim(e.sanctionType));
      (Grants(p) == e.granted && SanctionCorrect(trimmed, RulingIn(p))) <==> RulesAsExpected(p, e)
  {
    TrimEnds(e.sanctionType);
    TextInTrimmed(p, "sanction_type");
    SanctionsAre(Trim(e.sanctionType));
    TrimNothing("none");
  }

  /**
   * For a valid fixture and any response: the problem is that of the first failing check, of the calls and then of
   * the payload; and without a problem the outcome is correct exactly when the payload rules as expected.
   */
  lemma ScoredExactly(f: Fixture, calls: seq<ToolCall>, matcher: Matcher)
    requires ValidExpectation(f.expected)
    ensures
      var r, ofCalls := Scored(f, calls, matcher), Verdict(CallChecks(calls));
      && (ofCalls != NoProblem ==> r.problem == ofCalls)
      && (ofCalls == NoProblem ==> |calls| == 1 && calls[0].arguments.Some?)
      && (ofCalls == NoProblem ==>
            && r.problem == Verdict(PayloadChecks(calls[0].arguments.value))
            && (r.problem == NoProblem ==>
                  && (r.score.grantCorrect <==> Grants(calls[0].arguments.value) == f.expected.granted)
                  && (r.score.outcomeCorrect <==> RulesAsExpected(calls[0].arguments.value, f.expected))))
  {
    CallVerdict(calls);
    if CallProblem(calls) == NoProblem {
      var p := calls[0].arguments.value;
      PayloadRead(p);
      if ReadRuling(p).1 == NoProblem {
        ScoredConsistent(p);
        OutcomeOf(p, f.expected);
      }
    }
  }

  /** The matched tags are those of the reasoning and the detail together, and one of them is enough. */
  lemma ReasonsScored(f: Fixture, calls: seq<ToolCall>, matcher: Matcher)
    ensures
      var r := Scored(f, calls, matcher);
      r.problem == NoProblem ==>
        && |calls| == 1 && calls[0].arguments.Some?
        && (var p := calls[0].arguments.value;
            r.score.matchedReasonTags
            == matcher(TextIn(p, "reasoning") + " " + TextIn(p, "sanction_detail"), f.expected.reasonTags))
        && (r.score.reasonCorrect <==> r.score.matchedReasonTags != [])
  {
    if CallProblem(calls) == NoProblem {
      PayloadRead(calls[0].arguments.value);
    }
  }

  // ----- fixtures -----

  /** The party's name in any case, with white space around it. */
  predicate Names(s: string, party: string) {
    |Trim(s)| == |party| && forall k :: 0 <= k < |party| ==> Lower(Trim(s)[k]) == party[k]
  }

  lemma PartyIs(s: string)
    ensures NormalizeParty(s) == "plaintiff" <==> Names(s, "plaintiff")
    ensures NormalizeParty(s) == "defendant" <==> Names(s, "defendant")
    ensures NormalizeParty(s) in ["plaintiff", "defendant", ""]
  {
    LowerIs(Trim(s), "plaintiff");
    LowerIs(Trim(s), "defendant");
  }

  lemma LowerIs(s: string, t: string)
    ensures LowerCase(s) == t <==> |s| == |t| && forall k :: 0 <= k < |t| ==> Lower(s[k]) == t[k]
  {
  }

  /** A granted motion with one of the four sanctions, and an amount just for money; or a denied one with nothing. */
  predicate FairExpectation(e: Expected) {
    if e.granted then
      IsSanction(Trim(e.sanctionType))
      && (if ForMoney(Trim(e.sanctionType)) then e.sanctionAmount > 0.0 else e.sanctionAmount == 0.0)
    else e.sanctionType == "none" && e.sanctionAmount == 0.0
  }

  lemma ExpectationIs(e: Expected)
    ensures ValidExpectation(e) <==> FairExpectation(e)
  {
    TrimEnds(e.sanctionType);
    SanctionsAre(Trim(e.sanctionType));
    TrimNothing("none");
  }

  predicate Opponents(a: string, b: string) {
    (Names(a, "plaintiff") && Names(b, "defendant")) || (Names(a, "defendant") && Names(b, "plaintiff"))
  }

  predicate Filled(texts: seq<string>) {
    forall k :: 0 <= k < |texts| ==> !AllSpace(texts[k])
  }

  /** A fixture is valid exactly when its texts are there, its parties are the two opponents, and its ruling is fair. */
  lemma ValidIff(f: Fixture)
    ensures
      Valid(f)
      <==> && f.tier > 0 && Opponents(f.movant, f.targetParty) && FairExpectation(f.expected)
           && f.expected.reasonTags != [] && Filled([f.id, f.issueFamily])
           && Filled([f.challengedFiling, f.filingText, f.noticeText, f.motionText, f.oppositionText])
  {
    PartyIs(f.movant);
    PartyIs(f.targetParty);
    ExpectationIs(f.expected);
    FilledTwo(f.id, f.issueFamily);
    FilledFive(f.challengedFiling, f.filingText, f.noticeText, f.motionText, f.oppositionText);
  }

  lemma FilledTwo(a: string, b: string)
    ensures Filled([a, b]) <==> !Blank(a) && !Blank(b)
  {
    BlankIff(a);
    BlankIff(b);
    var texts := [a, b];
    assert texts[0] == a && texts[1] == b;
  }

  lemma FilledFive(a: string, b: string, c: string, d: string, e: string)
    ensures Filled([a, b, c, d, e]) <==> !Blank(a) && !Blank(b) && !Blank(c) && !Blank(d) && !Blank(e)
  {
    BlankIff(a);
    BlankIff(b);
    BlankIff(c);
    BlankIff(d);
    BlankIff(e);
    var texts := [a, b, c, d, e];
    assert texts[0] == a && texts[1] == b && texts[2] == c && texts[3] == d && texts[4] == e;
  }

  /** A result keeps what its fixture expects, and is counted under the fixture's tier, issue and movant. */
  lemma ScoredUnder(f: Fixture, calls: seq<ToolCall>, matcher: Matcher)
    ensures
      var r := Scored(f, calls, matcher);
      && r.expected == f.expected.(sanctionType := Trim(f.expected.sanctionType))
      && r.labels.tier == f.tier && r.labels.issueFamily == Trim(f.issueFamily)
      && (Names(f.movant, "plaintiff") ==> r.labels.movant == "plaintiff")
      && (Names(f.movant, "defendant") ==> r.labels.movant == "defendant")
  {
    PartyIs(f.movant);
  }

  // ----- how a result is counted -----

  /** Each counter grows by one or not at all. */
  predicate Adds(counter: int, grows: bool) {
    counter == if grows then 1 else 0
  }

  /**
   * What a response to a valid fixture adds to the counters: one to the total, and one to each of the others
   * exactly when it cannot be scored, rules as expected, or grants, denies or sanctions wrongly.
   */
  lemma CountedExactly(f: Fixture, calls: seq<ToolCall>, matcher: Matcher, p: Payload)
    requires ValidExpectation(f.expected)
    requires |calls| == 1 && calls[0].arguments == Some(p)
    ensures
      var r, e := Scored(f, calls, matcher), f.expected;
      var one, scored := Summary.One(r), r.problem == NoProblem;
      && one.total == 1 && Adds(one.invalid, !scored)
      && Adds(one.correct, scored && RulesAsExpected(p, e))
      && Adds(one.grantCorrect, scored && Grants(p) == e.granted)
      && Adds(one.falseGrants, scored && Grants(p) && !e.granted)
      && Adds(one.falseDenials, scored && Denies(p) && e.granted)
      && Adds(one.sanctionMismatches, scored && Grants(p) && e.granted && !RulesAsExpected(p, e))
  {
    var r := Scored(f, calls, matcher);
    ScoredExactly(f, calls, matcher);
    ScoredIsClean(f, calls, matcher);
    DeniedIsRight(f, calls, matcher, p);
    if r.problem == NoProblem {
      CallVerdict(calls);
      PayloadRead(p);
      ScoredConsistent(p);
      assert r.ruling == RulingIn(p);
    }
  }

  lemma DeniedIsRight(f: Fixture, calls: seq<ToolCall>, matcher: Matcher, p: Payload)
    requires ValidExpectation(f.expected) && |calls| == 1 && calls[0].arguments == Some(p)
    ensures
      var r := Scored(f, calls, matcher);
      r.problem == NoProblem && !f.expected.granted && r.score.grantCorrect ==> r.score.outcomeCorrect
  {
    if !f.expected.granted {
      DeniedIsNeverMismatched(f, calls, matcher);
    }
  }

  /** Without a call that can be read, a response only adds to the total and to the invalid ones. */
  lemma CountedInvalid(f: Fixture, calls: seq<ToolCall>, matcher: Matcher)
    requires Verdict(CallChecks(calls)) != NoProblem
    ensures Summary.One(Scored(f, calls, matcher)) == Summary.ZERO.(total := 1, invalid := 1)
  {
    CallVerdict(calls);
  }

  /** The labels under which the tables count a response to a valid fixture. */
  lemma CountedUnder(f: Fixture, calls: seq<ToolCall>, matcher: Matcher)
    requires Valid(f)
    ensures
      var r := Scored(f, calls, matcher);
      && Summary.KEYS.family(r) == Trim(f.issueFamily)
      && Summary.KEYS.tier(r) == "tier_" + Decimal(f.tier)
      && Summary.KEYS.movant(r) == (if Names(f.movant, "plaintiff") then "plaintiff" else "defendant")
      && Summary.KEYS.sanction(r) == Trim(f.expected.sanctionType)
  {
    var r := Scored(f, calls, matcher);
    ScoredUnder(f, calls, matcher);
    PartyIs(f.movant);
    ExpectationIs(f.expected);
    KeysAre(f, r);
  }

  lemma KeysAre(f: Fixture, r: Result)
    requires f.tier >= 0 && !Blank(f.issueFamily) && FairExpectation(f.expected)
    requires r.labels.tier == f.tier && r.labels.issueFamily == Trim(f.issueFamily)
    requires r.labels.movant == "plaintiff" || r.labels.movant == "defendant"
    requires r.expected.sanctionType == Trim(f.expected.sanctionType)
    ensures Summary.KEYS.family(r) == Trim(f.issueFamily) && Summary.KEYS.tier(r) == "tier_" + Decimal(f.tier)
    ensures Summary.KEYS.movant(r) == r.labels.movant && Summary.KEYS.sanction(r) == Trim(f.expected.sanctionType)
  {
    LabelStays(f.issueFamily);
    TierStays(f.tier);
    PartyStays();
    SanctionStays(f.expected);
  }

  lemma PartyStays()
    ensures Summary.TableKey("plaintiff") == "plaintiff" && Summary.TableKey("defendant") == "defendant"
  {
    TrimNothing("plaintiff");
    TrimNothing("defendant");
  }

  lemma LabelStays(s: string)
    requires !Blank(s)
    ensures Summary.TableKey(Trim(s)) == Trim(s)
  {
    TrimEnds(s);
  }

  lemma TierStays(tier: int)
    requires tier >= 0
    ensures Summary.TableKey("tier_" + Itoa(tier)) == "tier_" + Decimal(tier)
  {
    var s := "tier_" + Decimal(tier);
    assert IsDigit(Decimal(tier)[|Decimal(tier)| - 1]) && s[|s| - 1] == Decimal(tier)[|Decimal(tier)| - 1];
    TrimNothing(s);
  }

  lemma SanctionStays(e: Expected)
    requires FairExpectation(e)
    ensures Summary.TableKey(Trim(e.sanctionType)) == Trim(e.sanctionType)
  {
    TrimNothing("none");
    TrimEnds(e.sanctionType);
  }
}
