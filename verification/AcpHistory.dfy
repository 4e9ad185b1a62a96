/** What a successful request was answered by: a line read after the request registered, and nobody else's. */
module AcpHistory {
  import opened AcpClient

  /** The line with this response is among those read from number n on. */
  predicate ReadSince(lines: seq<Response>, n: nat, response: Response) {
    exists k :: n <= k < |lines| && lines[k] == response
  }

  predicate Succeeded(s: State, r: nat) {
    r < |s.threads| && s.threads[r].phase.Returned? && s.threads[r].phase.outcome.Success?
  }

  function Answer(s: State, r: nat): Response
    requires Succeeded(s, r)
  {
    s.threads[r].phase.outcome.response
  }

  /** Not in the table yet, nor has it been. */
  predicate Unregistered(s: State, r: nat) {
    r < |s.threads| ==> s.threads[r].phase.Numbered?
  }

  /** Whatever is on its way to request r, or has arrived, was read from line n on; failures are not lines. */
  ghost predicate AllSince(s: State, r: nat, n: nat) {
    && n <= |s.lines|
    && (s.reader.Holding? && s.reader.ch == r ==> ReadSince(s.lines, n, s.reader.response))
    && (r < |s.shared.channels| ==> SlotSince(s, r, n))
    && (Succeeded(s, r) ==> ReadSince(s.lines, n, Answer(s, r)))
  }

  ghost predicate SlotSince(s: State, r: nat, n: nat)
    requires r < |s.shared.channels|
  {
    var slot := s.shared.channels[r].slot;
    slot.Some? && slot.value.error.None? ==> ReadSince(s.lines, n, slot.value)
  }

  lemma HeldIsRegistered(s: State)
    requires Invariant(s) && s.reader.Holding?
    ensures !Unregistered(s, s.reader.ch)
  {
    assert s.Owed(s.reader.ch);
  }

  lemma NothingYet(s: State, r: nat)
    requires Invariant(s) && Unregistered(s, r)
    ensures AllSince(s, r, |s.lines|)
  {
    if s.reader.Holding? {
      HeldIsRegistered(s);
    }
  }

  lemma StillRead(lines: seq<Response>, n: nat, response: Response, more: Response)
    requires ReadSince(lines, n, response)
    ensures ReadSince(lines + [more], n, response)
  {
    var k :| n <= k < |lines| && lines[k] == response;
    assert (lines + [more])[k] == response;
  }

  lemma JustRead(lines: seq<Response>, n: nat, response: Response)
    requires n <= |lines|
    ensures ReadSince(lines + [response], n, response)
  {
    assert (lines + [response])[|lines|] == response;
  }

  lemma ReadLineSince(s: State, a: Action, r: nat, n: nat)
    requires Invariant(s) && Enabled(s, a) && a.ReadLine? && AllSince(s, r, n)
    ensures AllSince(Next(s, a), r, n)
  {
    JustRead(s.lines, n, a.response);
    if r < |s.shared.channels| {
      var slot := s.shared.channels[r].slot;
      if slot.Some? && slot.value.error.None? {
        StillRead(s.lines, n, slot.value, a.response);
      }
    }
    if Succeeded(s, r) {
      StillRead(s.lines, n, Answer(s, r), a.response);
    }
  }

  lemma StepSince(s: State, a: Action, r: nat, n: nat)
    requires Invariant(s) && Enabled(s, a) && AllSince(s, r, n)
    ensures AllSince(Next(s, a), r, n)
  {
    if a.ReadLine? {
      ReadLineSince(s, a, r, n);
    } else if a.Deliver? || a.SweepSend? || a.SweepTake? || a.SweepEnd? || a.EndOfInput? || a.CloseDone? {
      ReaderSince(s, a, r, n);
    } else {
      OthersSince(s, a, r, n);
    }
  }

  lemma ReaderSince(s: State, a: Action, r: nat, n: nat)
    requires Invariant(s) && Enabled(s, a) && AllSince(s, r, n)
    requires a.Deliver? || a.SweepSend? || a.SweepTake? || a.SweepEnd? || a.EndOfInput? || a.CloseDone?
    ensures AllSince(Next(s, a), r, n)
  {
  }

  /** The steps of requests and of Close. */
  lemma OthersSince(s: State, a: Action, r: nat, n: nat)
    requires Invariant(s) && Enabled(s, a) && AllSince(s, r, n)
    requires !IsReaderStep(a)
    ensures AllSince(Next(s, a), r, n)
  {
  }

  lemma {:induction false} RunSince(s: State, actions: seq<Action>, r: nat, n: nat)
    requires Invariant(s) && Runs(s, actions) && AllSince(s, r, n)
    ensures AllSince(After(s, actions), r, n)
    decreases |actions|
  {
    if actions != [] {
      StepKeeps(s, actions[0]);
      StepSince(s, actions[0], r, n);
      RunSince(Next(s, actions[0]), actions[1..], r, n);
    }
  }

  lemma {:induction false} RunSplits(s: State, actions: seq<Action>, m: nat)
    requires Runs(s, actions) && m <= |actions|
    ensures Runs(s, actions[..m]) && Runs(After(s, actions[..m]), actions[m..])
    ensures After(After(s, actions[..m]), actions[m..]) == After(s, actions)
    decreases |actions|
  {
    if m == 0 {
      assert actions[..0] == [] && actions[0..] == actions;
    } else {
      assert actions[..m][1..] == actions[1..][..m - 1] && actions[m..] == actions[1..][m - 1..];
      RunSplits(Next(s, actions[0]), actions[1..], m - 1);
    }
  }

  /**
   * In every run: a request that succeeds returns a line that was read after every moment at which the
   * request was not registered yet.
   */
  lemma AnsweredLater(actions: seq<Action>, m: nat, r: nat)
    requires Runs(INITIAL, actions) && m <= |actions|
    ensures Runs(INITIAL, actions[..m])
    ensures
      var before, now := After(INITIAL, actions[..m]), After(INITIAL, actions);
      Unregistered(before, r) && Succeeded(now, r) ==> ReadSince(now.lines, |before.lines|, Answer(now, r))
  {
    RunSplits(INITIAL, actions, m);
    var before := After(INITIAL, actions[..m]);
    RunKeeps(INITIAL, actions[..m]);
    if Unregistered(before, r) {
      NothingYet(before, r);
      RunSince(before, actions[m..], r, |before.lines|);
    }
  }

  /** No line answers two requests, however often the peer repeats it. */
  lemma AnswersDiffer(actions: seq<Action>, q: nat, r: nat, k: nat)
    requires Runs(INITIAL, actions)
    ensures
      var s := After(INITIAL, actions);
      k < |s.lines| && Succeeded(s, q) && Succeeded(s, r) && Answer(s, q) == s.lines[k] == Answer(s, r) ==> q == r
  {
    RunKeeps(INITIAL, actions);
  }
}
