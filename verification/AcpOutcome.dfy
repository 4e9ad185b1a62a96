/** Why a request ended as it did, and that every outcome a caller is promised can be had. */
module AcpOutcome {
  import opened Text
  import opened AcpClient
  import opened AcpHistory

  // ----- what has happened -----

  /** The state after the first n actions of a run. */
  ghost function At(actions: seq<Action>, n: nat): State
    requires Runs(INITIAL, actions) && n <= |actions|
  {
    RunSplits(INITIAL, actions, n);
    After(INITIAL, actions[..n])
  }

  lemma AtNext(actions: seq<Action>, n: nat)
    requires Runs(INITIAL, actions) && n < |actions|
    ensures Invariant(At(actions, n)) && Enabled(At(actions, n), actions[n])
    ensures At(actions, n + 1) == Next(At(actions, n), actions[n])
  {
    RunSplits(INITIAL, actions, n);
    RunKeeps(INITIAL, actions[..n]);
    var more := actions[..n + 1];
    RunSplits(INITIAL, actions, n + 1);
    RunSplits(INITIAL, more, n);
    assert more[..n] == actions[..n] && more[n..] == [actions[n]];
    OneStep(At(actions, n), actions[n]);
  }

  lemma OneStep(s: State, a: Action)
    ensures Runs(s, [a]) <==> Enabled(s, a)
    ensures Enabled(s, a) ==> After(s, [a]) == Next(s, a)
  {
    assert [a][1..] == [];
  }

  lemma AtEnd(actions: seq<Action>)
    requires Runs(INITIAL, actions)
    ensures At(actions, |actions|) == After(INITIAL, actions)
  {
    assert actions[..|actions|] == actions;
  }

  predicate Happened(actions: seq<Action>, n: nat, a: Action)
    requires n <= |actions|
  {
    exists k :: 0 <= k < n && actions[k] == a
  }

  lemma HappenedNext(actions: seq<Action>, n: nat, a: Action)
    requires n < |actions|
    ensures Happened(actions, n + 1, a) <==> actions[n] == a || Happened(actions, n, a)
  {
  }

  /** Request r stood in the table when the input ended with this message. */
  ghost predicate SweptWith(actions: seq<Action>, n: nat, r: nat, message: string)
    requires Runs(INITIAL, actions) && n <= |actions|
  {
    exists k ::
      0 <= k < n && actions[k] == EndOfInput(message) && r + 1 in At(actions, k).shared.pending
  }

  predicate ClosedBefore(actions: seq<Action>, n: nat, a: Action)
    requires n <= |actions|
  {
    exists j, k :: 0 <= j < k < n && actions[j] == Close && actions[k] == a
  }

  // ----- the steps a request has taken -----

  function PhaseOf(s: State, r: nat): Phase {
    if r < |s.threads| then s.threads[r].phase else Numbered
  }

  predicate Ends(phase: Phase, outcome: Outcome) {
    phase == Leaving(outcome) || phase == Returned(outcome)
  }

  predicate Received(phase: Phase) {
    phase.Returned? && (phase.outcome.Success? || phase.outcome.PeerError?)
  }

  /** Which of its steps a request has taken so far. */
  datatype Past = Past(
    registered: bool, refused: bool, failedWrite: bool, cancelled: bool, received: bool, sawDone: bool, left: bool)
  {
    function Grown(a: Action, r: nat, closed: bool): Past {
      Past(
        registered || a == Register(r), refused || (a == Register(r) && closed),
        failedWrite || a == WriteLine(r, false), cancelled || a == SeeCancel(r), received || a == Receive(r),
        sawDone || a == SeeDone(r), left || a == Leave(r))
    }
  }

  function PastOf(actions: seq<Action>, n: nat, r: nat): Past
    requires n <= |actions|
  {
    Past(
      Happened(actions, n, Register(r)), ClosedBefore(actions, n, Register(r)),
      Happened(actions, n, WriteLine(r, false)),
      Happened(actions, n, SeeCancel(r)), Happened(actions, n, Receive(r)), Happened(actions, n, SeeDone(r)),
      Happened(actions, n, Leave(r)))
  }

  lemma ClosedNext(actions: seq<Action>, n: nat, a: Action)
    requires n < |actions|
    ensures
      ClosedBefore(actions, n + 1, a)
      <==> (actions[n] == a && Happened(actions, n, Close)) || ClosedBefore(actions, n, a)
  {
  }

  lemma PastNext(actions: seq<Action>, n: nat, r: nat)
    requires n < |actions|
    ensures PastOf(actions, n + 1, r) == PastOf(actions, n, r).Grown(actions[n], r, Happened(actions, n, Close))
  {
    HappenedNext(actions, n, Register(r));
    ClosedNext(actions, n, Register(r));
    HappenedNext(actions, n, WriteLine(r, false));
    HappenedNext(actions, n, SeeCancel(r));
    HappenedNext(actions, n, Receive(r));
    HappenedNext(actions, n, SeeDone(r));
    HappenedNext(actions, n, Leave(r));
  }

  /** The phase of a request tells exactly which steps it has taken. */
  predicate Tells(phase: Phase, past: Past) {
    && (past.registered <==> !phase.Numbered?)
    && (past.refused <==> phase == Returned(ClientClosed))
    && (past.failedWrite <==> phase == Leaving(WriteFailed) || phase == Returned(WriteFailed))
    && (past.cancelled <==> phase == Leaving(Cancelled) || phase == Returned(Cancelled))
    && (past.received <==> phase.Returned? && (phase.outcome.Success? || phase.outcome.PeerError?))
    && (past.sawDone <==> phase == Returned(TransportClosed))
    && (past.left <==> phase == Returned(WriteFailed) || phase == Returned(Cancelled))
    && (phase.Leaving? ==> phase.outcome.WriteFailed? || phase.outcome.Cancelled?)
  }

  lemma StepTells(s: State, a: Action, r: nat, past: Past)
    requires Enabled(s, a) && Tells(PhaseOf(s, r), past)
    ensures Tells(PhaseOf(Next(s, a), r), past.Grown(a, r, s.shared.closed))
  {
    if !IsStepOf(a, r) {
      OthersStay(s, a, r);
    }
  }

  /** Nobody but the request itself changes its phase. */
  lemma OthersStay(s: State, a: Action, r: nat)
    requires Enabled(s, a) && !IsStepOf(a, r)
    ensures PhaseOf(Next(s, a), r) == PhaseOf(s, r)
  {
  }

  // ----- where the values come from -----

  /** Whether request r stood in the table when the input ended with this message. */
  type Swept = (nat, string) -> bool

  ghost predicate Grows(swept: Swept, swept': Swept) {
    forall r, message :: swept(r, message) ==> swept'(r, message)
  }

  /** An error that request r may return: the peer's line with its id said so, or the sweep that found it. */
  ghost predicate Blamed(lines: seq<Response>, swept: Swept, r: nat, message: string) {
    || (exists response :: response in lines && response.id == r + 1 && response.error == Some(message))
    || swept(r, message)
  }

  /** What may stand in the channel of request r. */
  ghost predicate Given(lines: seq<Response>, swept: Swept, r: nat, response: Response) {
    || (response.id == r + 1 && response in lines)
    || (response.error.Some? && swept(r, response.error.value))
  }

  ghost predicate SweepSourced(s: State, swept: Swept) {
    s.reader.Sweeping? ==>
      && (forall id :: id in s.shared.pending ==> swept(s.shared.pending[id], s.reader.message))
      && (s.reader.held.Some? ==> swept(s.reader.held.value, s.reader.message))
  }

  ghost predicate SlotsSourced(s: State, swept: Swept) {
    forall r :: 0 <= r < |s.shared.channels| && s.shared.channels[r].slot.Some? ==>
      Given(s.lines, swept, r, s.shared.channels[r].slot.value)
  }

  ghost predicate ErrorSourced(s: State, swept: Swept, r: nat, phase: Phase) {
    && (phase.Leaving? ==> !phase.outcome.PeerError?)
    && (phase.Returned? && phase.outcome.PeerError? ==> Blamed(s.lines, swept, r, phase.outcome.message))
  }

  ghost predicate ErrorsSourced(s: State, swept: Swept) {
    forall r :: 0 <= r < |s.threads| ==> ErrorSourced(s, swept, r, s.threads[r].phase)
  }

  ghost predicate SweptNext(s: State, a: Action, swept: Swept, swept': Swept) {
    && Grows(swept, swept')
    && (a.EndOfInput? ==> forall id :: id in s.shared.pending ==> swept'(s.shared.pending[id], a.message))
  }

  lemma SweepStep(s: State, a: Action, swept: Swept, swept': Swept)
    requires Enabled(s, a) && SweepSourced(s, swept) && SweptNext(s, a, swept, swept')
    ensures SweepSourced(Next(s, a), swept')
  {
  }

  lemma GivenGrows(lines: seq<Response>, more: seq<Response>, swept: Swept, swept': Swept)
    requires Grows(swept, swept')
    ensures forall r, v :: Given(lines, swept, r, v) ==> Given(lines + more, swept', r, v)
    ensures forall r, m :: Blamed(lines, swept, r, m) ==> Blamed(lines + more, swept', r, m)
  {
  }

  function LinesAdded(a: Action): seq<Response> {
    if a.ReadLine? then [a.response] else []
  }

  lemma LinesNext(s: State, a: Action)
    requires Enabled(s, a)
    ensures Next(s, a).lines == s.lines + LinesAdded(a)
  {
  }

  lemma SlotsStep(s: State, a: Action, swept: Swept, swept': Swept)
    requires Invariant(s) && Enabled(s, a) && SweepSourced(s, swept) && SlotsSourced(s, swept)
    requires SweptNext(s, a, swept, swept')
    ensures SlotsSourced(Next(s, a), swept')
  {
    LinesNext(s, a);
    GivenGrows(s.lines, LinesAdded(a), swept, swept');
  }

  lemma GivenBlames(lines: seq<Response>, swept: Swept, r: nat, response: Response)
    requires Given(lines, swept, r, response) && response.error.Some?
    ensures Blamed(lines, swept, r, response.error.value)
  {
    assert response.id == r + 1 && response in lines ==> response.error == Some(response.error.value);
  }

  lemma ErrorStep(s: State, a: Action, swept: Swept, swept': Swept, r: nat)
    requires Invariant(s) && Enabled(s, a) && SlotsSourced(s, swept) && r < |s.threads|
    requires ErrorSourced(s, swept, r, s.threads[r].phase) && Grows(swept, swept')
    ensures ErrorSourced(Next(s, a), swept', r, PhaseOf(Next(s, a), r))
  {
    LinesNext(s, a);
    GivenGrows(s.lines, LinesAdded(a), swept, swept');
    if a == Receive(r) {
      var response := s.shared.channels[r].slot.value;
      if response.error.Some? {
        GivenBlames(s.lines, swept, r, response);
      }
    } else if !IsStepOf(a, r) {
      OthersStay(s, a, r);
    }
  }

  lemma ErrorsStep(s: State, a: Action, swept: Swept, swept': Swept)
    requires Invariant(s) && Enabled(s, a) && SlotsSourced(s, swept) && ErrorsSourced(s, swept)
    requires Grows(swept, swept')
    ensures ErrorsSourced(Next(s, a), swept')
  {
    forall r | 0 <= r < |Next(s, a).threads| ensures ErrorSourced(Next(s, a), swept', r, PhaseOf(Next(s, a), r)) {
      if r < |s.threads| {
        ErrorStep(s, a, swept, swept', r);
      } else {
        OthersStay(s, a, r);
      }
    }
  }

  // ----- over whole runs -----

  ghost function SweptBy(actions: seq<Action>, n: nat): Swept
    requires Runs(INITIAL, actions) && n <= |actions|
  {
    (r: nat, message: string) => SweptWith(actions, n, r, message)
  }

  function LinesRead(actions: seq<Action>, n: nat): seq<Response>
    requires n <= |actions|
  {
    if n == 0 then [] else LinesRead(actions, n - 1) + LinesAdded(actions[n - 1])
  }

  lemma SweptMore(actions: seq<Action>, n: nat)
    requires Runs(INITIAL, actions) && n < |actions|
    ensures SweptNext(At(actions, n), actions[n], SweptBy(actions, n), SweptBy(actions, n + 1))
  {
    AtNext(actions, n);
    var s := At(actions, n);
    if actions[n].EndOfInput? {
      forall id | id in s.shared.pending
        ensures SweptWith(actions, n + 1, s.shared.pending[id], actions[n].message)
      {
        assert id == s.shared.pending[id] + 1;
      }
    }
  }

  ghost predicate Flags(actions: seq<Action>, n: nat)
    requires Runs(INITIAL, actions) && n <= |actions|
  {
    var s := At(actions, n);
    && (s.shared.closed <==> Happened(actions, n, Close))
    && (s.shared.done <==> Happened(actions, n, CloseDone))
    && s.lines == LinesRead(actions, n)
  }

  lemma FlagsNext(s: State, a: Action)
    requires Enabled(s, a)
    ensures Next(s, a).shared.closed <==> s.shared.closed || a.Close?
    ensures Next(s, a).shared.done <==> s.shared.done || a.CloseDone?
  {
  }

  /** What the lines, the closed flag and the done channel are, after any number of actions. */
  lemma {:induction false} FlagsHold(actions: seq<Action>, n: nat)
    requires Runs(INITIAL, actions) && n <= |actions|
    ensures Flags(actions, n)
  {
    if n > 0 {
      FlagsHold(actions, n - 1);
      AtNext(actions, n - 1);
      FlagsNext(At(actions, n - 1), actions[n - 1]);
      LinesNext(At(actions, n - 1), actions[n - 1]);
      HappenedNext(actions, n - 1, Close);
      HappenedNext(actions, n - 1, CloseDone);
    }
  }

  lemma PastToldNext(actions: seq<Action>, n: nat, r: nat)
    requires Runs(INITIAL, actions) && n < |actions| && Tells(PhaseOf(At(actions, n), r), PastOf(actions, n, r))
    ensures Tells(PhaseOf(At(actions, n + 1), r), PastOf(actions, n + 1, r))
  {
    FlagsHold(actions, n);
    PastNext(actions, n, r);
    var s, past := At(actions, n), PastOf(actions, n, r);
    AtNext(actions, n);
    StepTells(s, actions[n], r, past);
  }

  lemma {:induction false} PastTold(actions: seq<Action>, n: nat, r: nat)
    requires Runs(INITIAL, actions) && n <= |actions|
    ensures Tells(PhaseOf(At(actions, n), r), PastOf(actions, n, r))
  {
    if n > 0 {
      PastTold(actions, n - 1, r);
      PastToldNext(actions, n - 1, r);
    }
  }

  lemma {:induction false} Sourced(actions: seq<Action>, n: nat)
    requires Runs(INITIAL, actions) && n <= |actions|
    ensures
      var s, swept := At(actions, n), SweptBy(actions, n);
      SweepSourced(s, swept) && SlotsSourced(s, swept) && ErrorsSourced(s, swept)
  {
    if n > 0 {
      var s, a := At(actions, n - 1), actions[n - 1];
      Sourced(actions, n - 1);
      AtNext(actions, n - 1);
      SweptMore(actions, n - 1);
      SweepStep(s, a, SweptBy(actions, n - 1), SweptBy(actions, n));
      SlotsStep(s, a, SweptBy(actions, n - 1), SweptBy(actions, n));
      ErrorsStep(s, a, SweptBy(actions, n - 1), SweptBy(actions, n));
    }
  }

  /** The peer sent this error under the request's id, or the input ended with it while the request was in the table. */
  ghost predicate ErrorHappened(actions: seq<Action>, r: nat, message: string)
    requires Runs(INITIAL, actions)
  {
    || (exists response ::
          && Happened(actions, |actions|, ReadLine(response))
          && response.id == r + 1 && response.error == Some(message))
    || SweptWith(actions, |actions|, r, message)
  }

  /** What has to have happened for a request to return with this outcome. */
  ghost predicate Explains(actions: seq<Action>, r: nat, outcome: Outcome)
    requires Runs(INITIAL, actions)
  {
    var n := |actions|;
    match outcome
    case Success(response) =>
      && response.id == r + 1 && response.error.None? && Happened(actions, n, Receive(r))
      && Happened(actions, n, ReadLine(response))
    case PeerError(message) =>
      Happened(actions, n, Receive(r)) && ErrorHappened(actions, r, message)
    case ClientClosed => ClosedBefore(actions, n, Register(r))
    case WriteFailed => Happened(actions, n, WriteLine(r, false)) && Happened(actions, n, Leave(r))
    case Cancelled => Happened(actions, n, SeeCancel(r)) && Happened(actions, n, Leave(r))
    case TransportClosed => Happened(actions, n, CloseDone) && Happened(actions, n, SeeDone(r))
  }

  lemma {:induction false} LineHappened(actions: seq<Action>, n: nat, response: Response)
    requires n <= |actions|
    ensures response in LinesRead(actions, n) <==> Happened(actions, n, ReadLine(response))
  {
    if n > 0 {
      LineHappened(actions, n - 1, response);
      HappenedNext(actions, n - 1, ReadLine(response));
    }
  }

  lemma LinesHappened(actions: seq<Action>)
    requires Runs(INITIAL, actions)
    ensures
      forall response ::
        response in After(INITIAL, actions).lines <==> Happened(actions, |actions|, ReadLine(response))
  {
    AtEnd(actions);
    FlagsHold(actions, |actions|);
    forall response
      ensures response in LinesRead(actions, |actions|) <==> Happened(actions, |actions|, ReadLine(response))
    {
      LineHappened(actions, |actions|, response);
    }
  }

  lemma ErrorExplained(actions: seq<Action>, r: nat)
    requires Runs(INITIAL, actions)
    ensures
      var s := After(INITIAL, actions);
      r < |s.threads| && s.threads[r].phase.Returned? && s.threads[r].phase.outcome.PeerError? ==>
        ErrorHappened(actions, r, s.threads[r].phase.outcome.message)
  {
    AtEnd(actions);
    Sourced(actions, |actions|);
    LinesHappened(actions);
  }

  lemma AnswerExplained(actions: seq<Action>, r: nat)
    requires Runs(INITIAL, actions)
    ensures
      var s := After(INITIAL, actions);
      Succeeded(s, r) ==>
        && Answer(s, r).id == r + 1 && Answer(s, r).error.None?
        && Happened(actions, |actions|, ReadLine(Answer(s, r)))
  {
    RunKeeps(INITIAL, actions);
    LinesHappened(actions);
  }

  lemma {:induction false} SawDoneHappened(actions: seq<Action>, n: nat, r: nat)
    requires Runs(INITIAL, actions) && n <= |actions| && Happened(actions, n, SeeDone(r))
    ensures Happened(actions, n, CloseDone)
  {
    HappenedNext(actions, n - 1, SeeDone(r));
    HappenedNext(actions, n - 1, CloseDone);
    if actions[n - 1] == SeeDone(r) {
      AtNext(actions, n - 1);
      FlagsHold(actions, n - 1);
    } else {
      SawDoneHappened(actions, n - 1, r);
    }
  }

  /** Every outcome in every run has its reason in what happened before. */
  lemma OutcomeExplained(actions: seq<Action>, r: nat)
    requires Runs(INITIAL, actions)
    ensures
      var s := After(INITIAL, actions);
      r < |s.threads| && s.threads[r].phase.Returned? ==> Explains(actions, r, s.threads[r].phase.outcome)
  {
    ErrorExplained(actions, r);
    AnswerExplained(actions, r);
    StepsDecide(actions, r);
    if Happened(actions, |actions|, SeeDone(r)) {
      SawDoneHappened(actions, |actions|, r);
    }
  }

  /**
   * The steps a request took decide how it returns: with an answer when it received, with the peer's error or
   * the sweep's, and otherwise with the reason for which it gave up.
   */
  lemma StepsDecide(actions: seq<Action>, r: nat)
    requires Runs(INITIAL, actions)
    ensures Tells(PhaseOf(After(INITIAL, actions), r), PastOf(actions, |actions|, r))
  {
    AtEnd(actions);
    PastTold(actions, |actions|, r);
  }

  // ----- what can be had -----

  predicate Open(s: State, r: nat) {
    InPhase(s, r, Waiting) && r + 1 in s.shared.pending && s.reader.Reading?
  }

  function Reply(response: Response): Outcome {
    if response.error.None? then Success(response) else PeerError(response.error.value)
  }

  /** Only this request has returned, and it has left the table. */
  predicate Answered(s: State, t: State, r: nat, response: Response) {
    && r < |s.threads| && t.threads == s.threads[r := Thread(r + 1, Returned(Reply(response)))]
    && t.shared.pending == s.shared.pending - {r + 1} && t.reader.Reading? && t.lines == s.lines + [response]
  }

  lemma TwoSteps(s: State, a: Action, b: Action)
    requires Enabled(s, a) && Enabled(Next(s, a), b)
    ensures Runs(s, [a, b]) && After(s, [a, b]) == Next(Next(s, a), b)
  {
    assert [a, b][1..] == [b];
    OneStep(Next(s, a), b);
  }

  lemma ThreeSteps(s: State, a: Action, b: Action, c: Action)
    requires Enabled(s, a) && Enabled(Next(s, a), b) && Enabled(Next(Next(s, a), b), c)
    ensures Runs(s, [a, b, c]) && After(s, [a, b, c]) == Next(Next(Next(s, a), b), c)
  {
    assert [a, b, c][1..] == [b, c];
    TwoSteps(Next(s, a), b, c);
  }

  /** A line with the id of a waiting request goes to that request, and to no other. */
  lemma AnswerArrives(s: State, r: nat, response: Response)
    requires Invariant(s) && Open(s, r) && response.id == r + 1
    ensures
      var answer := [ReadLine(response), Deliver, Receive(r)];
      Runs(s, answer) && Answered(s, After(s, answer), r, response)
  {
    var s1 := Next(s, ReadLine(response));
    assert s1.reader == Holding(r, response);
    ThreeSteps(s, ReadLine(response), Deliver, Receive(r));
  }

  /** From every reachable state in which a request waits, the peer can still answer it, with whatever it likes. */
  lemma WaitingCanBeAnswered(actions: seq<Action>, r: nat, response: Response)
    requires Runs(INITIAL, actions) && Open(After(INITIAL, actions), r) && response.id == r + 1
    ensures
      var s := After(INITIAL, actions);
      var answer := [ReadLine(response), Deliver, Receive(r)];
      && Runs(s, answer) && Answered(s, After(s, answer), r, response)
      && (response.error.None? ==> Succeeded(After(s, answer), r) && Answer(After(s, answer), r) == response)
      && (response.error.Some? ==> InPhase(After(s, answer), r, Returned(PeerError(response.error.value))))
  {
    RunKeeps(INITIAL, actions);
    AnswerArrives(After(INITIAL, actions), r, response);
  }

  /** A new request on an open client gets the next id, enters the table, and waits once its line is written. */
  lemma CallWaits(s: State)
    requires Invariant(s) && s.MutexFree() && !s.shared.closed
    ensures
      var n := |s.threads|;
      var call := [Begin, Register(n), WriteLine(n, true)];
      && Runs(s, call)
      && var t := After(s, call);
         && t.threads == s.threads + [Thread(n + 1, Waiting)] && t.shared.pending == s.shared.pending[n + 1 := n]
         && t.reader == s.reader && t.lines == s.lines
  {
    var n := |s.threads|;
    ThreeSteps(s, Begin, Register(n), WriteLine(n, true));
  }

  /** After Close a new request is refused, and the table stays what it is. */
  lemma CloseRefuses(s: State)
    requires Invariant(s) && s.MutexFree()
    ensures
      var n := |s.threads|;
      && Enabled(s, Close)
      && var refused := [Begin, Register(n)];
         && Runs(Next(s, Close), refused)
         && var t := After(Next(s, Close), refused);
            && t.threads == s.threads + [Thread(n + 1, Returned(ClientClosed))]
            && t.shared.pending == s.shared.pending && t.shared.closed
  {
    TwoSteps(Next(s, Close), Begin, Register(|s.threads|));
  }

  /** Closed once, closed for good: whatever happens, nothing enters the table. */
  lemma ClosedStays(s: State, a: Action)
    requires Enabled(s, a) && s.shared.closed
    ensures Next(s, a).shared.closed && Next(s, a).shared.pending.Keys <= s.shared.pending.Keys
  {
  }

  /** The two ways to give up: a write that fails and a cancelled context.  Both leave the table. */
  lemma GivesUp(s: State, r: nat, cancelled: bool)
    requires Invariant(s) && s.MutexFree() && InPhase(s, r, if cancelled then Waiting else InTable)
    ensures
      var way := [if cancelled then SeeCancel(r) else WriteLine(r, false), Leave(r)];
      && Runs(s, way)
      && After(s, way)
         == s.With(r, Returned(if cancelled then Cancelled else WriteFailed))
            .(shared := s.shared.(pending := s.shared.pending - {r + 1}))
  {
    TwoSteps(s, if cancelled then SeeCancel(r) else WriteLine(r, false), Leave(r));
  }

  /** A line whose id nobody waits for is read and changes nothing else. */
  lemma StrayLine(s: State, response: Response)
    requires s.reader.Reading? && response.id !in s.shared.pending
    ensures Enabled(s, ReadLine(response))
    ensures Next(s, ReadLine(response)) == s.(lines := s.lines + [response])
  {
  }

  /** When the input has ended, a waiting request may also return without looking for its value. */
  lemma DoneReturns(s: State, r: nat)
    requires InPhase(s, r, Waiting) && s.shared.done
    ensures Enabled(s, SeeDone(r)) && Next(s, SeeDone(r)) == s.With(r, Returned(TransportClosed))
  {
  }

  /** A request found by the sweep returns the sweep's message. */
  lemma SweepArrives(s: State, r: nat, message: string)
    requires Invariant(s) && Open(s, r)
    ensures
      var way := [EndOfInput(message), SweepTake(r + 1), SweepSend];
      && Runs(s, way) && Enabled(After(s, way), Receive(r))
      && InPhase(Next(After(s, way), Receive(r)), r, Returned(PeerError(message)))
  {
    ThreeSteps(s, EndOfInput(message), SweepTake(r + 1), SweepSend);
  }
}
