/**
 * The JSON-RPC client (JSON-RPC 2.0, sections 4 and 5) as interleaved steps of its goroutines: any
 * number of requests, one reader, and Close.  What they share is one table of pending requests
 * behind a mutex, a one-slot channel per request, and the done channel.
 */
module AcpClient {
  import opened Text

  datatype Response = Response(id: int, result: string, error: Option<string>)

  /** A channel of capacity one: what is in it, and how often it was sent to. */
  datatype Channel = Channel(slot: Option<Response>, sends: nat)

  const EMPTY := Channel(None, 0)

  // ----- the shared fields and the sections that change them -----

  /** Request number r has channel number r; pending maps request ids to channels. */
  datatype Shared = Shared(
    nextId: int, pending: map<int, nat>, channels: seq<Channel>, closed: bool, done: bool)
  {
    /** nextID.Add(1) and make(chan rpcResponse, 1). */
    function Begun(): Shared {
      this.(nextId := nextId + 1, channels := channels + [EMPTY])
    }

    function Registered(id: int, ch: nat): Shared {
      this.(pending := pending[id := ch])
    }

    function Removed(id: int): Shared {
      this.(pending := pending - {id})
    }

    /** A send completes only into an empty channel. */
    predicate CanSend(ch: nat) {
      ch < |channels| && channels[ch].slot.None?
    }

    function Sent(ch: nat, response: Response): Shared
      requires CanSend(ch)
    {
      this.(channels := channels[ch := Channel(Some(response), channels[ch].sends + 1)])
    }

    function Received(ch: nat): Shared
      requires ch < |channels|
    {
      this.(channels := channels[ch := channels[ch].(slot := None)])
    }
  }

  /** What failPending sends. */
  function Failure(message: string): Response {
    Response(0, "", Some(message))
  }

  // ----- the goroutines -----

  datatype Outcome =
    | Success(response: Response)
    | PeerError(message: string)
    | ClientClosed
    | WriteFailed
    | Cancelled
    | TransportClosed

  datatype Phase =
    | Numbered                    // has its id, is not in the table yet
    | InTable                     // is in the table, has not written its line yet
    | Waiting                     // in the select
    | Leaving(outcome: Outcome)   // gave up, has not left the table yet
    | Returned(outcome: Outcome)

  datatype Thread = Thread(id: int, phase: Phase)

  datatype Reader =
    | Reading
    | Holding(ch: nat, response: Response)                // took a channel from the table, did not send yet
    | Sweeping(message: string, held: Option<nat>)        // inside failPending, with the mutex
    | Swept                                               // behind failPending, done not closed yet
    | Ended

  /** Everything, with the response lines read so far. */
  datatype State = State(shared: Shared, threads: seq<Thread>, reader: Reader, lines: seq<Response>) {
    predicate MutexFree() {
      !reader.Sweeping?
    }

    /** The reader has taken channel r out of the table and still owes it a value. */
    predicate Owed(r: nat) {
      || (reader.Holding? && reader.ch == r)
      || (reader.Sweeping? && reader.held == Some(r))
    }

    function With(r: nat, phase: Phase): State
      requires r < |threads|
    {
      this.(threads := threads[r := threads[r].(phase := phase)])
    }
  }

  const INITIAL := State(Shared(0, map[], [], false, false), [], Reading, [])

  datatype Action =
    | Begin
    | Register(r: nat)
    | WriteLine(r: nat, ok: bool)
    | SeeCancel(r: nat)
    | Leave(r: nat)
    | Receive(r: nat)
    | SeeDone(r: nat)
    | ReadLine(response: Response)
    | Deliver
    | EndOfInput(message: string)
    | SweepTake(id: int)
    | SweepSend
    | SweepEnd
    | CloseDone
    | Close

  predicate InPhase(s: State, r: nat, phase: Phase) {
    r < |s.threads| && s.threads[r].phase == phase
  }

  predicate Enabled(s: State, a: Action) {
    match a
    case Begin => true
    case Register(r) => InPhase(s, r, Numbered) && s.MutexFree()
    case WriteLine(r, _) => InPhase(s, r, InTable)
    case SeeCancel(r) => InPhase(s, r, Waiting)
    case Leave(r) => r < |s.threads| && s.threads[r].phase.Leaving? && s.MutexFree()
    case Receive(r) => InPhase(s, r, Waiting) && r < |s.shared.channels| && s.shared.channels[r].slot.Some?
    case SeeDone(r) => InPhase(s, r, Waiting) && s.shared.done
    case ReadLine(_) => s.reader.Reading?
    case Deliver => s.reader.Holding? && s.shared.CanSend(s.reader.ch)
    case EndOfInput(_) => s.reader.Reading?
    case SweepTake(id) => s.reader.Sweeping? && s.reader.held.None? && id in s.shared.pending
    case SweepSend => s.reader.Sweeping? && s.reader.held.Some? && s.shared.CanSend(s.reader.held.value)
    case SweepEnd => s.reader.Sweeping? && s.reader.held.None? && s.shared.pending == map[]
    case CloseDone => s.reader.Swept?
    case Close => s.MutexFree()
  }

  function Next(s: State, a: Action): State
    requires Enabled(s, a)
  {
    match a
    case Begin =>
      s.(shared := s.shared.Begun(), threads := s.threads + [Thread(s.shared.nextId + 1, Numbered)])
    case Register(r) =>
      if s.shared.closed then s.With(r, Returned(ClientClosed))
      else s.With(r, InTable).(shared := s.shared.Registered(s.threads[r].id, r))
    case WriteLine(r, ok) => s.With(r, if ok then Waiting else Leaving(WriteFailed))
    case SeeCancel(r) => s.With(r, Leaving(Cancelled))
    case Leave(r) =>
      s.With(r, Returned(s.threads[r].phase.outcome)).(shared := s.shared.Removed(s.threads[r].id))
    case Receive(r) =>
      var response := s.shared.channels[r].slot.value;
      var outcome := if response.error.Some? then PeerError(response.error.value) else Success(response);
      s.With(r, Returned(outcome)).(shared := s.shared.Received(r))
    case SeeDone(r) => s.With(r, Returned(TransportClosed))
    case ReadLine(response) =>
      var s' := s.(lines := s.lines + [response]);
      if response.id in s.shared.pending then
        s'.(shared := s.shared.Removed(response.id), reader := Holding(s.shared.pending[response.id], response))
      else s'
    case Deliver => s.(shared := s.shared.Sent(s.reader.ch, s.reader.response), reader := Reading)
    case EndOfInput(message) => s.(reader := Sweeping(message, None))
    case SweepTake(id) =>
      s.(shared := s.shared.Removed(id), reader := Sweeping(s.reader.message, Some(s.shared.pending[id])))
    case SweepSend =>
      s.(shared := s.shared.Sent(s.reader.held.value, Failure(s.reader.message)),
         reader := Sweeping(s.reader.message, None))
    case SweepEnd => s.(reader := Swept)
    case CloseDone => s.(shared := s.shared.(done := true), reader := Ended)
    case Close => s.(shared := s.shared.(closed := true))
  }

  /** A run from a state: every action is enabled where it happens. */
  ghost predicate Runs(s: State, actions: seq<Action>)
    decreases |actions|
  {
    actions == [] || (Enabled(s, actions[0]) && Runs(Next(s, actions[0]), actions[1..]))
  }

  ghost function After(s: State, actions: seq<Action>): State
    requires Runs(s, actions)
    decreases |actions|
  {
    if actions == [] then s else After(Next(s, actions[0]), actions[1..])
  }

  // ----- what every step keeps -----

  /** Every request has the id of its number. */
  ghost predicate IdsInOrder(s: State) {
    && s.shared.nextId == |s.threads| == |s.shared.channels|
    && forall r :: 0 <= r < |s.threads| ==> s.threads[r].id == r + 1
  }

  /**
   * A channel in the table is its own request's, unused, and nobody else is about to send to it.
   * A request that has returned stays in the table only when it left through the closed transport.
   */
  ghost predicate TableClean(s: State) {
    forall id :: id in s.shared.pending ==>
      var ch := s.shared.pending[id];
      && ch < |s.threads| && id == ch + 1
      && ch < |s.shared.channels| && s.shared.channels[ch] == EMPTY && !s.Owed(ch)
      && !s.threads[ch].phase.Numbered?
      && (s.threads[ch].phase.Returned? ==> s.threads[ch].phase.outcome.TransportClosed? && s.shared.done)
  }

  /** Where a value is owed, nothing was sent yet; the response in hand carries the request's id. */
  ghost predicate OwedClean(s: State) {
    && (forall r :: 0 <= r < |s.threads| && s.Owed(r) ==>
        r < |s.shared.channels| && s.shared.channels[r] == EMPTY && !s.threads[r].phase.Numbered?)
    && (s.reader.Holding? ==>
        s.reader.ch < |s.threads| && s.reader.response.id == s.reader.ch + 1 && s.reader.response in s.lines)
    && (s.reader.Sweeping? && s.reader.held.Some? ==> s.reader.held.value < |s.threads|)
  }

  /** At most one send per channel; what it carried is the own response or a failure. */
  ghost predicate ChannelsClean(s: State) {
    forall r :: 0 <= r < |s.shared.channels| ==>
      var channel := s.shared.channels[r];
      && channel.sends <= 1
      && (r < |s.threads| && s.threads[r].phase.Numbered? ==> channel == EMPTY)
      && (channel.slot.Some? ==>
          && channel.sends == 1
          && (channel.slot.value.error.Some? || (channel.slot.value.id == r + 1 && channel.slot.value in s.lines)))
  }

  /** A successful request returned a response line with its own id and without error. */
  ghost predicate SuccessOwn(s: State) {
    forall r :: 0 <= r < |s.threads| && s.threads[r].phase.Returned? && s.threads[r].phase.outcome.Success? ==>
      var response := s.threads[r].phase.outcome.response;
      response.id == s.threads[r].id && response.error.None? && response in s.lines
  }

  /** A request that waits, or will wait, is in the table, has its value, or is owed it. */
  ghost predicate NobodyForgotten(s: State) {
    forall r :: 0 <= r < |s.threads| && (s.threads[r].phase.InTable? || s.threads[r].phase.Waiting?) ==>
      || (r + 1 in s.shared.pending && s.shared.pending[r + 1] == r)
      || (r < |s.shared.channels| && s.shared.channels[r].slot.Some?)
      || s.Owed(r)
  }

  ghost predicate Invariant(s: State) {
    && IdsInOrder(s) && TableClean(s) && OwedClean(s) && ChannelsClean(s) && SuccessOwn(s) && NobodyForgotten(s)
    && (forall r :: 0 <= r < |s.threads| && s.threads[r].phase.Leaving? ==> !s.threads[r].phase.outcome.Success?)
    && (s.shared.done <==> s.reader.Ended?)
  }

  lemma BeginKeeps(s: State, a: Action)
    requires Invariant(s) && Enabled(s, a) && a.Begin?
    ensures Invariant(Next(s, a))
  {
  }

  lemma RegisterKeepsTable(s: State, a: Action)
    requires Invariant(s) && Enabled(s, a) && a.Register?
    ensures IdsInOrder(Next(s, a)) && TableClean(Next(s, a)) && NobodyForgotten(Next(s, a))
  {
  }

  lemma RegisterKeepsChannels(s: State, a: Action)
    requires Invariant(s) && Enabled(s, a) && a.Register?
    ensures OwedClean(Next(s, a)) && ChannelsClean(Next(s, a)) && SuccessOwn(Next(s, a))
  {
  }

  lemma RegisterKeeps(s: State, a: Action)
    requires Invariant(s) && Enabled(s, a) && a.Register?
    ensures Invariant(Next(s, a))
  {
    RegisterKeepsTable(s, a);
    RegisterKeepsChannels(s, a);
  }

  lemma WriteLineKeeps(s: State, a: Action)
    requires Invariant(s) && Enabled(s, a) && a.WriteLine?
    ensures Invariant(Next(s, a))
  {
  }

  lemma SeeCancelKeeps(s: State, a: Action)
    requires Invariant(s) && Enabled(s, a) && a.SeeCancel?
    ensures Invariant(Next(s, a))
  {
  }

  lemma SeeDoneKeeps(s: State, a: Action)
    requires Invariant(s) && Enabled(s, a) && a.SeeDone?
    ensures Invariant(Next(s, a))
  {
  }

  lemma LeaveKeepsTable(s: State, a: Action)
    requires Invariant(s) && Enabled(s, a) && a.Leave?
    ensures IdsInOrder(Next(s, a)) && TableClean(Next(s, a)) && NobodyForgotten(Next(s, a))
  {
  }

  lemma LeaveKeepsChannels(s: State, a: Action)
    requires Invariant(s) && Enabled(s, a) && a.Leave?
    ensures OwedClean(Next(s, a)) && ChannelsClean(Next(s, a)) && SuccessOwn(Next(s, a))
  {
  }

  lemma LeaveKeeps(s: State, a: Action)
    requires Invariant(s) && Enabled(s, a) && a.Leave?
    ensures Invariant(Next(s, a))
  {
    LeaveKeepsTable(s, a);
    LeaveKeepsChannels(s, a);
  }

  lemma ReceiveKeepsTable(s: State, a: Action)
    requires Invariant(s) && Enabled(s, a) && a.Receive?
    ensures IdsInOrder(Next(s, a)) && TableClean(Next(s, a)) && NobodyForgotten(Next(s, a))
  {
  }

  lemma ReceiveKeepsChannels(s: State, a: Action)
    requires Invariant(s) && Enabled(s, a) && a.Receive?
    ensures OwedClean(Next(s, a)) && ChannelsClean(Next(s, a)) && SuccessOwn(Next(s, a))
  {
  }

  lemma ReceiveKeeps(s: State, a: Action)
    requires Invariant(s) && Enabled(s, a) && a.Receive?
    ensures Invariant(Next(s, a))
  {
    ReceiveKeepsTable(s, a);
    ReceiveKeepsChannels(s, a);
  }

  lemma ReadLineKeepsTable(s: State, a: Action)
    requires Invariant(s) && Enabled(s, a) && a.ReadLine?
    ensures IdsInOrder(Next(s, a)) && TableClean(Next(s, a))
  {
  }

  lemma ReadLineForgetsNobody(s: State, a: Action)
    requires Invariant(s) && Enabled(s, a) && a.ReadLine?
    ensures NobodyForgotten(Next(s, a))
  {
  }

  lemma ReadLineKeepsChannels(s: State, a: Action)
    requires Invariant(s) && Enabled(s, a) && a.ReadLine?
    ensures OwedClean(Next(s, a)) && ChannelsClean(Next(s, a)) && SuccessOwn(Next(s, a))
  {
  }

  lemma ReadLineKeeps(s: State, a: Action)
    requires Invariant(s) && Enabled(s, a) && a.ReadLine?
    ensures Invariant(Next(s, a))
  {
    ReadLineKeepsTable(s, a);
    ReadLineForgetsNobody(s, a);
    ReadLineKeepsChannels(s, a);
  }

  lemma DeliverKeeps(s: State, a: Action)
    requires Invariant(s) && Enabled(s, a) && a.Deliver?
    ensures Invariant(Next(s, a))
  {
    assert s.Owed(s.reader.ch);
  }

  lemma SweepTakeKeeps(s: State, a: Action)
    requires Invariant(s) && Enabled(s, a) && a.SweepTake?
    ensures Invariant(Next(s, a))
  {
  }

  lemma SweepSendKeeps(s: State, a: Action)
    requires Invariant(s) && Enabled(s, a) && a.SweepSend?
    ensures Invariant(Next(s, a))
  {
    assert s.Owed(s.reader.held.value);
  }

  lemma EndKeeps(s: State, a: Action)
    requires Invariant(s) && Enabled(s, a) && (a.EndOfInput? || a.SweepEnd? || a.CloseDone? || a.Close?)
    ensures Invariant(Next(s, a))
  {
  }

  lemma StepKeeps(s: State, a: Action)
    requires Invariant(s) && Enabled(s, a)
    ensures Invariant(Next(s, a))
  {
    match a
    case Begin => BeginKeeps(s, a);
    case Register(_) => RegisterKeeps(s, a);
    case WriteLine(_, _) => WriteLineKeeps(s, a);
    case SeeCancel(_) => SeeCancelKeeps(s, a);
    case SeeDone(_) => SeeDoneKeeps(s, a);
    case Leave(_) => LeaveKeeps(s, a);
    case Receive(_) => ReceiveKeeps(s, a);
    case ReadLine(_) => ReadLineKeeps(s, a);
    case Deliver => DeliverKeeps(s, a);
    case SweepTake(_) => SweepTakeKeeps(s, a);
    case SweepSend => SweepSendKeeps(s, a);
    case _ => EndKeeps(s, a);
  }

  lemma {:induction false} RunKeeps(s: State, actions: seq<Action>)
    requires Invariant(s) && Runs(s, actions)
    ensures Invariant(After(s, actions))
    decreases |actions|
  {
    if actions != [] {
      StepKeeps(s, actions[0]);
      RunKeeps(Next(s, actions[0]), actions[1..]);
    }
  }

  // ----- safety, over every run -----

  lemma IdsDiffer(s: State)
    requires IdsInOrder(s)
    ensures forall q, r :: 0 <= q < r < |s.threads| ==> s.threads[q].id != s.threads[r].id
  {
  }

  lemma SentOnce(s: State)
    requires ChannelsClean(s)
    ensures forall r :: 0 <= r < |s.shared.channels| ==> s.shared.channels[r].sends <= 1
  {
  }

  lemma DeliverIsFree(s: State)
    requires IdsInOrder(s) && OwedClean(s) && s.reader.Holding?
    ensures Enabled(s, Deliver)
  {
    assert s.Owed(s.reader.ch);
  }

  lemma SweepIsFree(s: State)
    requires IdsInOrder(s) && OwedClean(s) && s.reader.Sweeping?
    ensures Enabled(s, SweepSend) || Enabled(s, SweepEnd) || exists id :: Enabled(s, SweepTake(id))
  {
    if s.reader.held.Some? {
      assert s.Owed(s.reader.held.value);
    } else if s.shared.pending != map[] {
      var id := SomeMember(s.shared.pending.Keys);
      assert Enabled(s, SweepTake(id));
    }
  }

  /**
   * In every run: request ids are unique; no channel is ever sent to twice; a request that succeeds
   * returns a line the peer really sent, with the request's own id; and the reader never blocks.
   */
  lemma RunIsSafe(actions: seq<Action>)
    requires Runs(INITIAL, actions)
    ensures
      var s := After(INITIAL, actions);
      && (forall q, r :: 0 <= q < r < |s.threads| ==> s.threads[q].id != s.threads[r].id)
      && (forall r :: 0 <= r < |s.shared.channels| ==> s.shared.channels[r].sends <= 1)
      && SuccessOwn(s)
      && (s.reader.Holding? ==> Enabled(s, Deliver))
      && (s.reader.Sweeping? ==>
          Enabled(s, SweepSend) || Enabled(s, SweepEnd) || exists id :: Enabled(s, SweepTake(id)))
  {
    RunKeeps(INITIAL, actions);
    var s := After(INITIAL, actions);
    IdsDiffer(s);
    SentOnce(s);
    if s.reader.Holding? {
      DeliverIsFree(s);
    }
    if s.reader.Sweeping? {
      SweepIsFree(s);
    }
  }

  /** When failPending is done, every request in the table or in its select has a value waiting. */
  lemma SweepServesAll(actions: seq<Action>)
    requires Runs(INITIAL, actions) && Enabled(After(INITIAL, actions), SweepEnd)
    ensures
      var s := After(INITIAL, actions);
      forall r :: 0 <= r < |s.threads| && (s.threads[r].phase.InTable? || s.threads[r].phase.Waiting?) ==>
        r < |s.shared.channels| && s.shared.channels[r].slot.Some?
  {
    RunKeeps(INITIAL, actions);
  }

  // ----- progress -----

  /** How many steps of its own a request still needs at most. */
  function Distance(s: State, r: nat): nat {
    if r >= |s.threads| then 0
    else
      match s.threads[r].phase
      case Numbered => 4
      case InTable => 3
      case Waiting => 2
      case Leaving(_) => 1
      case Returned(_) => 0
  }

  predicate IsStepOf(a: Action, r: nat) {
    || a == Register(r) || a == WriteLine(r, true) || a == WriteLine(r, false) || a == SeeCancel(r)
    || a == Leave(r) || a == Receive(r) || a == SeeDone(r)
  }

  /** A request's own steps bring it closer to its end; no step of anybody else moves it at all. */
  lemma StepsApproach(s: State, a: Action, r: nat)
    requires Enabled(s, a) && r < |s.threads|
    ensures
      if IsStepOf(a, r) then Distance(Next(s, a), r) < Distance(s, r)
      else Distance(Next(s, a), r) == Distance(s, r)
    ensures |Next(s, a).threads| >= |s.threads| && (s.reader.Ended? ==> Next(s, a).reader.Ended?)
    ensures s.shared.done ==> Next(s, a).shared.done
  {
  }

  /** How many steps of its own the reader still needs until done is closed, once the input has ended. */
  function ReaderDistance(s: State): nat {
    match s.reader
    case Sweeping(_, held) => 2 * |s.shared.pending| + (if held.Some? then 3 else 2)
    case Swept => 1
    case _ => 0
  }

  predicate IsReaderStep(a: Action) {
    a.ReadLine? || a.Deliver? || a.EndOfInput? || a.SweepTake? || a.SweepSend? || a.SweepEnd? || a.CloseDone?
  }

  lemma TakeApproaches(s: State, a: Action)
    requires Enabled(s, a) && a.SweepTake?
    ensures ReaderDistance(Next(s, a)) < ReaderDistance(s)
  {
    OneLess(s.shared.pending, a.id);
  }

  /** While it sweeps nobody else can touch the table: each step of the reader brings it closer to its end. */
  lemma ReaderApproaches(s: State, a: Action)
    requires Enabled(s, a) && (s.reader.Sweeping? || s.reader.Swept?)
    ensures if IsReaderStep(a) then ReaderDistance(Next(s, a)) < ReaderDistance(s)
            else ReaderDistance(Next(s, a)) == ReaderDistance(s) && Next(s, a).reader == s.reader
  {
    if a.SweepTake? {
      TakeApproaches(s, a);
    }
  }

  /** The reader always has a step until done is closed. */
  lemma ReaderHasStep(s: State)
    requires Invariant(s) && !s.reader.Ended?
    ensures exists a :: IsReaderStep(a) && Enabled(s, a)
  {
    var a;
    match s.reader {
      case Reading => a := EndOfInput("");
      case Holding(_, _) => a := Deliver;
      case Swept => a := CloseDone;
      case Sweeping(_, held) =>
        if held.Some? {
          a := SweepSend;
        } else if s.shared.pending == map[] {
          a := SweepEnd;
        } else {
          var id := SomeMember(s.shared.pending.Keys);
          a := SweepTake(id);
        }
    }
    assert IsReaderStep(a) && Enabled(s, a);
  }

  /** Once the reader has ended, every request that has not returned has a step of its own. */
  lemma NobodyStuck(s: State, r: nat)
    requires s.reader.Ended? && s.shared.done && r < |s.threads| && !s.threads[r].phase.Returned?
    ensures exists a :: IsStepOf(a, r) && Enabled(s, a)
  {
    var a :=
      match s.threads[r].phase
      case Numbered => Register(r)
      case InTable => WriteLine(r, true)
      case Waiting => SeeDone(r)
      case Leaving(_) => Leave(r)
      case Returned(_) => Begin;
    assert IsStepOf(a, r) && Enabled(s, a);
  }

  /** The actions belong to request r, and lead from s to its return. */
  ghost predicate LeadsToReturn(s: State, r: nat, own: seq<Action>) {
    && (forall i :: 0 <= i < |own| ==> IsStepOf(own[i], r))
    && Runs(s, own)
    && r < |After(s, own).threads| && After(s, own).threads[r].phase.Returned?
  }

  lemma LeadsFurther(s: State, a: Action, r: nat, own: seq<Action>)
    requires Enabled(s, a) && IsStepOf(a, r) && LeadsToReturn(Next(s, a), r, own)
    ensures LeadsToReturn(s, r, [a] + own)
  {
    var all := [a] + own;
    assert all[1..] == own;
    forall i | 0 <= i < |all| ensures IsStepOf(all[i], r) {
      assert i > 0 ==> all[i] == own[i - 1];
    }
  }

  /**
   * After the reader has ended, every request can return within four steps of its own, also one that
   * entered the table behind the sweep.
   */
  lemma {:induction false} CanReturn(s: State, r: nat)
    requires s.reader.Ended? && s.shared.done && r < |s.threads|
    ensures exists own :: |own| <= Distance(s, r) <= 4 && LeadsToReturn(s, r, own)
    decreases Distance(s, r)
  {
    if s.threads[r].phase.Returned? {
      assert LeadsToReturn(s, r, []);
    } else {
      var a := OwnStep(s, r);
      CanReturn(Next(s, a), r);
      var own :| |own| <= Distance(Next(s, a), r) && LeadsToReturn(Next(s, a), r, own);
      LeadsFurther(s, a, r, own);
      assert |[a] + own| <= Distance(s, r);
    }
  }

  lemma OwnStep(s: State, r: nat) returns (a: Action)
    requires s.reader.Ended? && s.shared.done && r < |s.threads| && !s.threads[r].phase.Returned?
    ensures IsStepOf(a, r) && Enabled(s, a)
    ensures Next(s, a).reader.Ended? && Next(s, a).shared.done && r < |Next(s, a).threads|
    ensures Distance(Next(s, a), r) < Distance(s, r)
  {
    NobodyStuck(s, r);
    a :| IsStepOf(a, r) && Enabled(s, a);
    StepsApproach(s, a, r);
  }

  /** In every run that has closed done, no request is stuck. */
  lemma NoRequestStuck(actions: seq<Action>, r: nat)
    requires Runs(INITIAL, actions) && After(INITIAL, actions).shared.done
    requires r < |After(INITIAL, actions).threads|
    ensures exists own :: |own| <= 4 && LeadsToReturn(After(INITIAL, actions), r, own)
  {
    var s := After(INITIAL, actions);
    RunKeeps(INITIAL, actions);
    CanReturn(s, r);
    var own :| |own| <= Distance(s, r) <= 4 && LeadsToReturn(s, r, own);
  }

  // ----- the client object -----

  /** Exactly the channels of the given request ids were sent the failure. */
  ghost predicate Failed(before: seq<Channel>, after: seq<Channel>, ids: set<int>, message: string) {
    && |after| == |before|
    && forall ch :: 0 <= ch < |after| ==>
         after[ch]
         == if ch + 1 in ids then Channel(Some(Failure(message)), before[ch].sends + 1) else before[ch]
  }

  lemma FailOne(
    before: seq<Channel>, after: seq<Channel>, table: set<int>, left: set<int>, id: int, message: string)
    requires Failed(before, after, table - left, message) && id in left && left <= table && 0 < id <= |before|
    ensures after[id - 1] == before[id - 1]
    ensures
      var sent := Channel(Some(Failure(message)), before[id - 1].sends + 1);
      Failed(before, after[id - 1 := sent], table - (left - {id}), message)
  {
  }

  /** Under the invariant the sweep of the object may start: every entry is its own request's, with an empty channel. */
  lemma SweepMayStart(s: State)
    requires Invariant(s)
    ensures
      forall id :: id in s.shared.pending ==>
        && s.shared.pending[id] == id - 1 < |s.shared.channels|
        && s.shared.channels[id - 1].slot.None?
  {
  }

  /** The sweep's own steps; those of others that may come in between do not touch the table. */
  predicate IsSweepStep(a: Action) {
    a.SweepTake? || a.SweepSend?
  }

  /** The ids of the entries that have got their failure by now. */
  function Served(table: set<int>, s: State): set<int> {
    table - s.shared.pending.Keys
    - (if s.reader.Sweeping? && s.reader.held.Some? then {s.reader.held.value + 1} else {})
  }

  /** In the middle of the sweep of the table of state s0. */
  ghost predicate MidSweep(s0: State, s: State, message: string) {
    && s.reader.Sweeping? && s.reader.message == message && Invariant(s)
    && (forall id :: id in s.shared.pending ==> id in s0.shared.pending)
    && (s.reader.held.Some? ==>
        s.reader.held.value + 1 in s0.shared.pending && s.reader.held.value + 1 !in s.shared.pending)
    && Failed(s0.shared.channels, s.shared.channels, Served(s0.shared.pending.Keys, s), message)
    && s == s0.(shared := s0.shared.(pending := s.shared.pending, channels := s.shared.channels), reader := s.reader)
  }

  lemma SweepTakeMid(s0: State, s: State, a: Action, message: string)
    requires MidSweep(s0, s, message) && Enabled(s, a) && a.SweepTake?
    ensures MidSweep(s0, Next(s, a), message)
  {
    StepKeeps(s, a);
    TakenNotServed(s0.shared.pending.Keys, s, a);
  }

  lemma TakenNotServed(table: set<int>, s: State, a: Action)
    requires Invariant(s) && Enabled(s, a) && a.SweepTake?
    ensures Served(table, Next(s, a)) == Served(table, s) && Next(s, a).reader.held == Some(a.id - 1)
  {
  }

  lemma SweepSendMid(s0: State, s: State, a: Action, message: string)
    requires MidSweep(s0, s, message) && Enabled(s, a) && a.SweepSend?
    ensures MidSweep(s0, Next(s, a), message)
  {
    StepKeeps(s, a);
    var table, id := s0.shared.pending.Keys, s.reader.held.value + 1;
    assert Served(table, Next(s, a)) == Served(table, s) + {id} && id !in Served(table, s);
  }

  lemma {:induction false} SweepRun(s0: State, s: State, actions: seq<Action>, message: string)
    requires MidSweep(s0, s, message) && Runs(s, actions)
    requires forall i :: 0 <= i < |actions| ==> IsSweepStep(actions[i])
    ensures MidSweep(s0, After(s, actions), message)
    decreases |actions|
  {
    if actions != [] {
      assert IsSweepStep(actions[0]);
      if actions[0].SweepTake? {
        SweepTakeMid(s0, s, actions[0], message);
      } else {
        SweepSendMid(s0, s, actions[0], message);
      }
      SweepRun(s0, Next(s, actions[0]), actions[1..], message);
    }
  }

  /**
   * The steps of the sweep, in any order of the entries, do what the object's failPending does: they empty the
   * table, send the failure to exactly the channels that were in it, and change nothing else.
   */
  lemma SweepFails(s: State, actions: seq<Action>, message: string)
    requires Invariant(s) && s.reader == Sweeping(message, None) && Runs(s, actions)
    requires forall i :: 0 <= i < |actions| ==> IsSweepStep(actions[i])
    requires Enabled(After(s, actions), SweepEnd)
    ensures
      var t := After(s, actions);
      && Failed(s.shared.channels, t.shared.channels, s.shared.pending.Keys, message)
      && t == s.(shared := s.shared.(pending := map[], channels := t.shared.channels))
  {
    assert Served(s.shared.pending.Keys, s) == {};
    assert MidSweep(s, s, message);
    SweepRun(s, s, actions, message);
    assert Served(s.shared.pending.Keys, After(s, actions)) == s.shared.pending.Keys;
  }

  /** The fields that the goroutines share.  Each method is one section that no other interleaves. */
  class Client {
    var nextId: int
    var pending: map<int, nat>
    var channels: seq<Channel>
    var closed: bool
    var done: bool

    function View(): Shared
      reads this
    {
      Shared(nextId, pending, channels, closed, done)
    }

    constructor ()
      ensures View() == INITIAL.shared
    {
      nextId, pending, channels, closed, done := 0, map[], [], false, false;
    }

    /** The first two lines of request. */
    method NewRequest() returns (id: int, ch: nat)
      modifies this
      ensures View() == old(View().Begun()) && id == nextId && ch == |channels| - 1
    {
      nextId := nextId + 1;
      id := nextId;
      ch := |channels|;
      channels := channels + [EMPTY];
    }

    /** The locked section of request; false when the client is closed. */
    method Register(id: int, ch: nat) returns (ok: bool)
      modifies this
      ensures ok == !old(closed)
      ensures View() == if ok then old(View().Registered(id, ch)) else old(View())
    {
      if closed {
        return false;
      }
      pending := pending[id := ch];
      ok := true;
    }

    method RemovePending(id: int)
      modifies this
      ensures View() == old(View().Removed(id))
    {
      pending := pending - {id};
    }

    /** The locked section of handleLine for a response. */
    method TakePending(id: int) returns (ch: Option<nat>)
      modifies this
      ensures ch == old(if id in pending then Some(pending[id]) else None)
      ensures View() == if ch.Some? then old(View().Removed(id)) else old(View())
    {
      ch := if id in pending then Some(pending[id]) else None;
      if ch.Some? {
        pending := pending - {id};
      }
    }

    /** A channel send: it would block if the channel were not empty. */
    method Send(ch: nat, response: Response)
      requires View().CanSend(ch)
      modifies this
      ensures View() == old(View().Sent(ch, response))
    {
      channels := channels[ch := Channel(Some(response), channels[ch].sends + 1)];
    }

    method Receive(ch: nat) returns (response: Response)
      requires ch < |channels| && channels[ch].slot.Some?
      modifies this
      ensures response == old(channels[ch].slot.value) && View() == old(View().Received(ch))
    {
      response := channels[ch].slot.value;
      channels := channels[ch := channels[ch].(slot := None)];
    }

    /** One turn of the sweep: its send would block if the channel were not empty. */
    method FailEntry(id: int, message: string)
      requires id in pending && pending[id] < |channels| && channels[pending[id]].slot.None?
      modifies this
      ensures pending == old(pending) - {id}
      ensures channels == old(channels[pending[id] := Channel(Some(Failure(message)), channels[pending[id]].sends + 1)])
      ensures nextId == old(nextId) && closed == old(closed) && done == old(done)
    {
      var ch := pending[id];
      pending := pending - {id};
      Send(ch, Failure(message));
    }

    /** In the middle of the sweep: of the table so far exactly the entries that are gone have failed. */
    ghost predicate HalfSwept(before: seq<Channel>, table: set<int>, message: string)
      reads this
    {
      && pending.Keys <= table && Failed(before, channels, table - pending.Keys, message)
      && forall id :: id in pending ==> pending[id] == id - 1 < |before| && before[id - 1].slot.None?
    }

    /** The sweep's next entry, any one of the table. */
    method FailNext(message: string, ghost before: seq<Channel>, ghost table: set<int>)
      requires pending != map[] && HalfSwept(before, table, message)
      modifies this
      ensures HalfSwept(before, table, message) && pending.Keys < old(pending.Keys)
      ensures nextId == old(nextId) && closed == old(closed) && done == old(done)
    {
      ghost var some := SomeMember(pending.Keys);
      var id :| id in pending;
      FailOne(before, channels, table, pending.Keys, id, message);
      FailEntry(id, message);
    }

    /** The sweep, with the mutex held throughout: no send in it blocks, and every entry gets its failure. */
    method FailPending(message: string)
      requires forall id :: id in pending ==> pending[id] == id - 1 < |channels| && channels[id - 1].slot.None?
      modifies this
      ensures pending == map[] && nextId == old(nextId) && closed == old(closed) && done == old(done)
      ensures Failed(old(channels), channels, old(pending).Keys, message)
    {
      ghost var table, before := pending.Keys, channels;
      while pending != map[]
        invariant nextId == old(nextId) && closed == old(closed) && done == old(done)
        invariant HalfSwept(before, table, message)
        decreases pending.Keys
      {
        FailNext(message, before, table);
      }
      assert table - pending.Keys == table;
    }

    /** The last act of the reader. */
    method CloseDone()
      modifies this
      ensures View() == old(View()).(done := true)
    {
      done := true;
    }

    /** The locked section of Close; the first call only goes on to shut the transport. */
    method Close() returns (first: bool)
      modifies this
      ensures first == !old(closed) && View() == old(View()).(closed := true)
    {
      first := !closed;
      closed := true;
    }
  }
}
