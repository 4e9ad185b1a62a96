/**
 * The synthetic event stream: a finished response is played back as the events a streaming model
 * would have sent, to a connection that may break.
 */
module Stream {
  import opened Text
  import opened Reply

  /** An output item as the stream shows it; a message shows the parts of its content so far. */
  datatype Shape =
    | Reasoning(id: string)
    | MessageShape(id: string, content: seq<string>)
    | CallShape(id: string, callId: string, name: string, arguments: string)

  datatype Event =
    | Created(response: Response)
    | InProgress
    | ItemAdded(index: nat, shape: Shape)
    | ContentPartAdded(index: nat, itemId: string)
    | TextDelta(index: nat, itemId: string, delta: string)
    | TextDone(index: nat, itemId: string, text: string)
    | ContentPartDone(index: nat, itemId: string, text: string)
    | ArgumentsDelta(index: nat, itemId: string, delta: string)
    | ArgumentsDone(index: nat, itemId: string, arguments: string)
    | ItemDone(index: nat, shape: Shape)
    | Completed(response: Response)
    | EndMarker

  // ----- the events of a response -----

  function ItemEvents(item: Item, index: nat): seq<Event> {
    match item
    case MessageItem(id, text) =>
      [ItemAdded(index, MessageShape(id, [])), ContentPartAdded(index, id)]
      + (if text == "" then [] else [TextDelta(index, id, text)])
      + [TextDone(index, id, text), ContentPartDone(index, id, text), ItemDone(index, MessageShape(id, [text]))]
    case CallItem(id, callId, name, arguments) =>
      [ItemAdded(index, CallShape(id, callId, name, ""))]
      + (if arguments == "" then [] else [ArgumentsDelta(index, id, arguments)])
      + [ArgumentsDone(index, id, arguments), ItemDone(index, CallShape(id, callId, name, arguments))]
  }

  /** The events of an item at its place in the stream. */
  function EventsAt(item: OutputItem, offset: nat): seq<Event> {
    ItemEvents(item.item, item.outputIndex + offset)
  }

  function AllItemEvents(items: seq<OutputItem>, offset: nat): seq<Event> {
    if items == [] then []
    else
      var last := items[|items| - 1];
      AllItemEvents(items[..|items| - 1], offset) + EventsAt(last, offset)
  }

  predicate HasCall(items: seq<OutputItem>) {
    exists i :: 0 <= i < |items| && items[i].item.CallItem?
  }

  /** Tool calls are announced by an empty reasoning item. */
  function ReasoningEvents(items: seq<OutputItem>, reasoningId: string): seq<Event> {
    if HasCall(items) then [ItemAdded(0, Reasoning(reasoningId)), ItemDone(0, Reasoning(reasoningId))] else []
  }

  function Offset(items: seq<OutputItem>): nat {
    if HasCall(items) then 1 else 0
  }

  function Events(response: Response, items: seq<OutputItem>, reasoningId: string): seq<Event> {
    [Created(response), InProgress] + ReasoningEvents(items, reasoningId)
    + AllItemEvents(items, Offset(items)) + [Completed(response), EndMarker]
  }

  // ----- the writer -----

  /** What has happened on a connection: the number of writes, and what arrived. */
  datatype Traffic = Traffic(writes: nat, sent: seq<Event>)

  /** The connection: the n-th write succeeds or fails. */
  class Connection {
    const fails: nat -> bool
    var writes: nat
    var sent: seq<Event>

    constructor (fails: nat -> bool)
      ensures View() == Traffic(0, []) && this.fails == fails
    {
      this.fails := fails;
      writes, sent := 0, [];
    }

    function View(): Traffic
      reads this
    {
      Traffic(writes, sent)
    }

    method Send(event: Event) returns (ok: bool)
      modifies this
      ensures ok <==> !fails(old(writes))
      ensures View() == Traffic(old(writes) + 1, old(sent) + if ok then [event] else [])
    {
      ok := !fails(writes);
      if ok {
        sent := sent + [event];
      }
      writes := writes + 1;
    }

    /** Sends events one after another and stops at the first that fails. */
    method SendEach(events: seq<Event>) returns (ok: bool)
      modifies this
      ensures Played(fails, old(View()), events, View(), ok)
    {
      ok := true;
      NothingPlayed(fails, View());
      for i := 0 to |events|
        invariant ok && Played(fails, old(View()), events[..i], View(), true)
      {
        ghost var before := View();
        ok := Send(events[i]);
        OnePlayed(fails, old(View()), events[..i], before, events[i], View(), ok);
        assert events[..i + 1] == events[..i] + [events[i]];
        if !ok {
          PlayedPart(fails, old(View()), events[..i + 1], View(), events[i + 1..]);
          assert events == events[..i + 1] + events[i + 1..];
          return;
        }
      }
      assert events[..|events|] == events;
    }
  }

  predicate NoneFails(fails: nat -> bool, from: nat, to: nat) {
    forall n: nat :: from <= n < to ==> !fails(n)
  }

  /**
   * All events were sent and none of their writes failed; or the write of one of them failed, and exactly those
   * in front of it were sent, with nothing written behind it.
   */
  predicate Played(fails: nat -> bool, before: Traffic, events: seq<Event>, after: Traffic, ok: bool) {
    if ok then
      && NoneFails(fails, before.writes, after.writes)
      && after == Traffic(before.writes + |events|, before.sent + events)
    else
      exists k :: 0 <= k < |events| && BrokeAt(fails, before, events, after, k)
  }

  predicate BrokeAt(fails: nat -> bool, before: Traffic, events: seq<Event>, after: Traffic, k: nat)
    requires k < |events|
  {
    && after == Traffic(before.writes + k + 1, before.sent + events[..k])
    && NoneFails(fails, before.writes, after.writes - 1) && fails(after.writes - 1)
  }

  lemma NothingPlayed(fails: nat -> bool, s: Traffic)
    ensures Played(fails, s, [], s, true)
  {
    assert s.sent + [] == s.sent;
  }

  lemma OnePlayed(
    fails: nat -> bool, s0: Traffic, events: seq<Event>, s1: Traffic, event: Event, s2: Traffic, ok: bool)
    requires Played(fails, s0, events, s1, true) && (ok <==> !fails(s1.writes))
    requires s2 == Traffic(s1.writes + 1, s1.sent + if ok then [event] else [])
    ensures Played(fails, s0, events + [event], s2, ok)
  {
    Assoc(s0.sent, events, [event]);
    if !ok {
      assert (events + [event])[..|events|] == events && s1.sent + [] == s1.sent;
      assert BrokeAt(fails, s0, events + [event], s2, |events|);
    }
  }

  lemma PlayedOn(
    fails: nat -> bool, s0: Traffic, a: seq<Event>, s1: Traffic, b: seq<Event>, s2: Traffic, ok: bool)
    requires Played(fails, s0, a, s1, true) && Played(fails, s1, b, s2, ok)
    ensures Played(fails, s0, a + b, s2, ok)
  {
    Assoc(s0.sent, a, b);
    if ok {
      NoneFailsOn(fails, s0.writes, s1.writes, s2.writes);
    } else {
      var k :| 0 <= k < |b| && BrokeAt(fails, s1, b, s2, k);
      NoneFailsOn(fails, s0.writes, s1.writes, s2.writes - 1);
      assert (a + b)[..|a| + k] == a + b[..k];
      Assoc(s0.sent, a, b[..k]);
      assert BrokeAt(fails, s0, a + b, s2, |a| + k);
    }
  }

  lemma NoneFailsOn(fails: nat -> bool, from: nat, mid: nat, to: nat)
    requires NoneFails(fails, from, mid) && NoneFails(fails, mid, to)
    ensures NoneFails(fails, from, to)
  {
  }

  lemma PlayedPart(fails: nat -> bool, s0: Traffic, a: seq<Event>, s1: Traffic, b: seq<Event>)
    requires Played(fails, s0, a, s1, false)
    ensures Played(fails, s0, a + b, s1, false)
  {
    var k :| 0 <= k < |a| && BrokeAt(fails, s0, a, s1, k);
    assert (a + b)[..k] == a[..k];
    assert BrokeAt(fails, s0, a + b, s1, k);
  }

  lemma PlayedPrefix(fails: nat -> bool, s0: Traffic, a: seq<Event>, s1: Traffic, b: seq<Event>)
    requires Played(fails, s0, a, s1, false) && a <= b
    ensures Played(fails, s0, b, s1, false)
  {
    assert b == a + b[|a|..];
    PlayedPart(fails, s0, a, s1, b[|a|..]);
  }

  method SendItem(w: Connection, item: Item, index: nat) returns (ok: bool)
    modifies w
    ensures Played(w.fails, old(w.View()), ItemEvents(item, index), w.View(), ok)
  {
    var first, delta, last: seq<Event>;
    match item {
      case MessageItem(id, text) =>
        first := [ItemAdded(index, MessageShape(id, [])), ContentPartAdded(index, id)];
        delta := if text != "" then [TextDelta(index, id, text)] else [];
        last := [TextDone(index, id, text), ContentPartDone(index, id, text),
                 ItemDone(index, MessageShape(id, [text]))];
      case CallItem(id, callId, name, arguments) =>
        first := [ItemAdded(index, CallShape(id, callId, name, ""))];
        delta := if arguments != "" then [ArgumentsDelta(index, id, arguments)] else [];
        last := [ArgumentsDone(index, id, arguments), ItemDone(index, CallShape(id, callId, name, arguments))];
    }
    ghost var s0 := w.View();
    ok := w.SendEach(first);
    if !ok {
      PlayedPart(w.fails, s0, first, w.View(), delta);
      PlayedPart(w.fails, s0, first + delta, w.View(), last);
      return;
    }
    ghost var s1 := w.View();
    ok := w.SendEach(delta);
    if !ok {
      PlayedOn(w.fails, s0, first, s1, delta, w.View(), false);
      PlayedPart(w.fails, s0, first + delta, w.View(), last);
      return;
    }
    PlayedOn(w.fails, s0, first, s1, delta, w.View(), true);
    ghost var s2 := w.View();
    ok := w.SendEach(last);
    PlayedOn(w.fails, s0, first + delta, s2, last, w.View(), ok);
  }

  method WriteSyntheticResponsesStream(
    w: Connection, response: Response, responseItems: seq<OutputItem>, reasoningId: string) returns (ok: bool)
    modifies w
    ensures Played(w.fails, old(w.View()), Events(response, responseItems, reasoningId), w.View(), ok)
  {
    ghost var s0 := w.View();
    ghost var reasoning := ReasoningEvents(responseItems, reasoningId);
    ghost var body := AllItemEvents(responseItems, Offset(responseItems));
    ghost var start, end := [Created(response), InProgress], [Completed(response), EndMarker];
    ok := w.SendEach([Created(response), InProgress]);
    if !ok {
      PlayedPart(w.fails, s0, start, w.View(), reasoning);
      PlayedPart(w.fails, s0, start + reasoning, w.View(), body);
      PlayedPart(w.fails, s0, start + reasoning + body, w.View(), end);
      return;
    }
    ghost var s1 := w.View();
    var hasFunctionCall := false;
    for i := 0 to |responseItems|
      invariant hasFunctionCall <==> HasCall(responseItems[..i])
      invariant w.View() == s1
    {
      HasCallStep(responseItems, i);
      if responseItems[i].item.CallItem? {
        hasFunctionCall := true;
      }
    }
    assert responseItems[..|responseItems|] == responseItems;
    var streamIndexOffset := 0;
    if hasFunctionCall {
      ok := w.SendEach([ItemAdded(0, Reasoning(reasoningId)), ItemDone(0, Reasoning(reasoningId))]);
      if !ok {
        PlayedOn(w.fails, s0, start, s1, reasoning, w.View(), false);
        PlayedPart(w.fails, s0, start + reasoning, w.View(), body);
        PlayedPart(w.fails, s0, start + reasoning + body, w.View(), end);
        return;
      }
      streamIndexOffset := 1;
    }
    PlayedOn(w.fails, s0, start, s1, reasoning, w.View(), true);
    ghost var s2 := w.View();
    ok := SendItems(w, responseItems, streamIndexOffset);
    PlayedOn(w.fails, s0, start + reasoning, s2, body, w.View(), ok);
    if !ok {
      PlayedPart(w.fails, s0, start + reasoning + body, w.View(), end);
      return;
    }
    ghost var s3 := w.View();
    ok := w.SendEach([Completed(response), EndMarker]);
    PlayedOn(w.fails, s0, start + reasoning + body, s3, end, w.View(), ok);
  }

  lemma HasCallStep(items: seq<OutputItem>, i: nat)
    requires i < |items|
    ensures HasCall(items[..i + 1]) <==> HasCall(items[..i]) || items[i].item.CallItem?
  {
    var before, after := items[..i], items[..i + 1];
    if items[i].item.CallItem? {
      assert after[i].item.CallItem?;
    }
    if HasCall(before) {
      var j :| 0 <= j < |before| && before[j].item.CallItem?;
      assert after[j].item.CallItem?;
    }
    if HasCall(after) && !items[i].item.CallItem? {
      var j :| 0 <= j < |after| && after[j].item.CallItem?;
      assert before[j].item.CallItem?;
    }
  }

  method SendItems(w: Connection, items: seq<OutputItem>, offset: nat) returns (ok: bool)
    modifies w
    ensures Played(w.fails, old(w.View()), AllItemEvents(items, offset), w.View(), ok)
  {
    ok := true;
    ghost var s0 := w.View();
    NothingPlayed(w.fails, s0);
    for i := 0 to |items|
      invariant ok && Played(w.fails, s0, AllItemEvents(items[..i], offset), w.View(), true)
    {
      ghost var done, s := AllItemEvents(items[..i], offset), w.View();
      ghost var more := EventsAt(items[i], offset);
      AllItemEventsStep(items, i, offset);
      MoreItems(items, i + 1, offset);
      ok := SendItem(w, items[i].item, items[i].outputIndex + offset);
      PlayedOn(w.fails, s0, done, s, more, w.View(), ok);
      if !ok {
        PlayedPrefix(w.fails, s0, done + more, w.View(), AllItemEvents(items, offset));
        return;
      }
    }
    assert items[..|items|] == items;
  }

  lemma AllItemEventsStep(items: seq<OutputItem>, i: nat, offset: nat)
    requires i < |items|
    ensures
      AllItemEvents(items[..i + 1], offset)
      == AllItemEvents(items[..i], offset) + EventsAt(items[i], offset)
  {
    assert items[..i + 1][..i] == items[..i];
  }

  lemma {:induction false} MoreItems(items: seq<OutputItem>, i: nat, offset: nat)
    requires i <= |items|
    ensures AllItemEvents(items[..i], offset) <= AllItemEvents(items, offset)
    decreases |items| - i
  {
    if i == |items| {
      assert items[..i] == items;
    } else {
      AllItemEventsStep(items, i, offset);
      MoreItems(items, i + 1, offset);
    }
  }

  // ----- a client that folds the stream -----

  /** How far an open item has got. */
  datatype Progress = Begun | PartOpen | TextOver | PartOver | ArgumentsOver

  datatype Stage =
    | Unopened
    | Announced
    | Between
    | Building(shape: Shape, progress: Progress)
    | Closed
    | Ended

  /** What a client has seen: the response announced, the finished items, and where in the stream it is. */
  datatype Client = Client(announced: Option<Response>, finished: seq<Shape>, stage: Stage)

  const FRESH := Client(None, [], Unopened)

  /** What an item shows when it is added. */
  predicate Unfilled(shape: Shape) {
    match shape
    case Reasoning(_) => true
    case MessageShape(_, content) => content == []
    case CallShape(_, _, _, arguments) => arguments == ""
  }

  /** How far an item has got when it may be done. */
  function LastProgress(shape: Shape): Progress {
    match shape
    case Reasoning(_) => Begun
    case MessageShape(_, _) => PartOver
    case CallShape(_, _, _, _) => ArgumentsOver
  }

  /**
   * One event; None when it does not fit.  Every response is announced, in progress, and completed as it was
   * announced; every item is added empty, filled by deltas, said to be filled, and done, at the next index.
   */
  function Step(c: Client, event: Event): Option<Client> {
    match event
    case Created(response) => if c == FRESH then Some(Client(Some(response), [], Announced)) else None
    case InProgress => if c.stage.Announced? then Some(c.(stage := Between)) else None
    case ItemAdded(i, shape) =>
      if c.stage.Between? && i == |c.finished| && Unfilled(shape) then Some(c.(stage := Building(shape, Begun)))
      else None
    case ContentPartAdded(i, id) =>
      if At(c, i) && c.stage == Building(MessageShape(id, []), Begun) then
        Some(c.(stage := Building(MessageShape(id, [""]), PartOpen)))
      else None
    case TextDelta(i, id, delta) =>
      if At(c, i) && IsText(c, id) && delta != "" then
        Some(c.(stage := Building(MessageShape(id, [c.stage.shape.content[0] + delta]), PartOpen)))
      else None
    case TextDone(i, id, text) => Turned(c, i, MessageShape(id, [text]), PartOpen, TextOver)
    case ContentPartDone(i, id, text) => Turned(c, i, MessageShape(id, [text]), TextOver, PartOver)
    case ArgumentsDelta(i, id, delta) =>
      if At(c, i) && IsCall(c, id) && delta != "" then
        var call := c.stage.shape;
        Some(c.(stage := Building(call.(arguments := call.arguments + delta), Begun)))
      else None
    case ArgumentsDone(i, id, arguments) =>
      if At(c, i) && IsCall(c, id) && c.stage.shape.arguments == arguments then
        Some(c.(stage := Building(c.stage.shape, ArgumentsOver)))
      else None
    case ItemDone(i, shape) =>
      if At(c, i) && c.stage == Building(shape, LastProgress(shape)) then
        Some(c.(finished := c.finished + [shape], stage := Between))
      else None
    case Completed(response) =>
      if c.stage.Between? && c.announced == Some(response) then Some(c.(stage := Closed)) else None
    case EndMarker => if c.stage.Closed? then Some(c.(stage := Ended)) else None
  }

  function Turned(c: Client, i: nat, shape: Shape, from: Progress, to: Progress): Option<Client> {
    if At(c, i) && c.stage == Building(shape, from) then Some(c.(stage := Building(shape, to))) else None
  }

  predicate At(c: Client, i: nat) {
    c.stage.Building? && i == |c.finished|
  }

  predicate IsText(c: Client, id: string) {
    && c.stage.Building? && c.stage.progress == PartOpen && c.stage.shape.MessageShape? && c.stage.shape.id == id
    && |c.stage.shape.content| == 1
  }

  predicate IsCall(c: Client, id: string) {
    c.stage.Building? && c.stage.progress == Begun && c.stage.shape.CallShape? && c.stage.shape.id == id
  }

  function Fold(c: Client, events: seq<Event>): Option<Client>
    decreases |events|
  {
    if events == [] then Some(c)
    else
      match Step(c, events[0])
      case Some(c') => Fold(c', events[1..])
      case None => None
  }

  lemma {:induction false} FoldAppend(c: Client, a: seq<Event>, b: seq<Event>)
    ensures Fold(c, a + b) == if Fold(c, a).None? then None else Fold(Fold(c, a).value, b)
    decreases |a|
  {
    if a == [] {
      assert a + b == b;
    } else {
      assert (a + b)[1..] == a[1..] + b;
      if Step(c, a[0]).Some? {
        FoldAppend(Step(c, a[0]).value, a[1..], b);
      }
    }
  }

  /** The finished form of an item. */
  function Finished(item: Item): Shape {
    match item
    case MessageItem(id, text) => MessageShape(id, [text])
    case CallItem(id, callId, name, arguments) => CallShape(id, callId, name, arguments)
  }

  function FinishedAll(items: seq<OutputItem>): (shapes: seq<Shape>)
    ensures |shapes| == |items|
  {
    seq(|items|, k requires 0 <= k < |items| => Finished(items[k].item))
  }

  lemma FoldOne(c: Client, e: Event)
    ensures Fold(c, [e]) == Step(c, e)
  {
    assert [e][1..] == [];
  }

  lemma FoldCons(c: Client, e: Event, rest: seq<Event>)
    ensures Fold(c, [e] + rest) == if Step(c, e).None? then None else Fold(Step(c, e).value, rest)
  {
    assert ([e] + rest)[1..] == rest;
  }

  lemma FoldTwo(c: Client, e1: Event, e2: Event)
    ensures Fold(c, [e1, e2]) == if Step(c, e1).None? then None else Step(Step(c, e1).value, e2)
  {
    assert [e1, e2] == [e1] + [e2];
    FoldCons(c, e1, [e2]);
    if Step(c, e1).Some? {
      FoldOne(Step(c, e1).value, e2);
    }
  }

  /** Three stretches of events in a row, of which the middle one may be empty. */
  lemma FoldThree(c: Client, a: seq<Event>, b: seq<Event>, d: seq<Event>, c1: Client, c2: Client, c3: Client)
    requires Fold(c, a) == Some(c1) && Fold(c1, b) == Some(c2) && Fold(c2, d) == Some(c3)
    ensures Fold(c, a + b + d) == Some(c3)
  {
    FoldAppend(c, a, b);
    FoldAppend(c, a + b, d);
  }

  /** A client between two items. */
  function Idle(r: Response, finished: seq<Shape>): Client {
    Client(Some(r), finished, Between)
  }

  function AtWork(r: Response, finished: seq<Shape>, shape: Shape, progress: Progress): Client {
    Client(Some(r), finished, Building(shape, progress))
  }

  lemma FoldMessage(r: Response, done: seq<Shape>, i: nat, id: string, text: string)
    requires i == |done|
    ensures
      Fold(Idle(r, done), ItemEvents(MessageItem(id, text), i))
      == Some(Idle(r, done + [MessageShape(id, [text])]))
  {
    var shape := MessageShape(id, [text]);
    var first := [ItemAdded(i, MessageShape(id, [])), ContentPartAdded(i, id)];
    var delta := if text == "" then [] else [TextDelta(i, id, text)];
    var last := [TextDone(i, id, text), ContentPartDone(i, id, text), ItemDone(i, shape)];
    var begun, built := AtWork(r, done, MessageShape(id, [""]), PartOpen), AtWork(r, done, shape, PartOpen);
    assert last == [last[0]] + [last[1], last[2]];
    assert "" + text == text;
    FoldTwo(Idle(r, done), first[0], first[1]);
    FoldOne(begun, TextDelta(i, id, text));
    FoldTwo(AtWork(r, done, shape, TextOver), last[1], last[2]);
    FoldCons(built, last[0], [last[1], last[2]]);
    FoldThree(Idle(r, done), first, delta, last, begun, built, Idle(r, done + [shape]));
  }

  lemma FoldCall(
    r: Response, done: seq<Shape>, i: nat, id: string, callId: string, name: string, arguments: string)
    requires i == |done|
    ensures
      Fold(Idle(r, done), ItemEvents(CallItem(id, callId, name, arguments), i))
      == Some(Idle(r, done + [CallShape(id, callId, name, arguments)]))
  {
    var shape := CallShape(id, callId, name, arguments);
    var first := [ItemAdded(i, CallShape(id, callId, name, ""))];
    var delta := if arguments == "" then [] else [ArgumentsDelta(i, id, arguments)];
    var last := [ArgumentsDone(i, id, arguments), ItemDone(i, shape)];
    var begun, built := AtWork(r, done, CallShape(id, callId, name, ""), Begun), AtWork(r, done, shape, Begun);
    assert "" + arguments == arguments;
    FoldOne(Idle(r, done), first[0]);
    FoldOne(begun, ArgumentsDelta(i, id, arguments));
    FoldTwo(built, last[0], last[1]);
    FoldThree(Idle(r, done), first, delta, last, begun, built, Idle(r, done + [shape]));
  }

  /** The events of one item build exactly that item. */
  lemma FoldItem(r: Response, done: seq<Shape>, i: nat, item: Item)
    requires i == |done|
    ensures Fold(Idle(r, done), ItemEvents(item, i)) == Some(Idle(r, done + [Finished(item)]))
  {
    match item
    case MessageItem(id, text) => FoldMessage(r, done, i, id, text);
    case CallItem(id, callId, name, arguments) => FoldCall(r, done, i, id, callId, name, arguments);
  }

  lemma FoldOneMore(
    r: Response, done: seq<Shape>, before: seq<Event>, shapes: seq<Shape>, item: OutputItem, offset: nat)
    requires Fold(Idle(r, done), before) == Some(Idle(r, done + shapes))
    requires item.outputIndex + offset == |done + shapes|
    ensures
      Fold(Idle(r, done), before + EventsAt(item, offset))
      == Some(Idle(r, done + (shapes + [Finished(item.item)])))
  {
    Assoc(done, shapes, [Finished(item.item)]);
    FoldItem(r, done + shapes, item.outputIndex + offset, item.item);
    FoldAppend(Idle(r, done), before, EventsAt(item, offset));
  }

  lemma AllItemEventsLast(items: seq<OutputItem>, last: OutputItem, offset: nat)
    ensures AllItemEvents(items + [last], offset) == AllItemEvents(items, offset) + EventsAt(last, offset)
  {
    FrontAndLast(items, last);
  }

  lemma {:induction false} FoldItems(r: Response, done: seq<Shape>, items: seq<OutputItem>)
    requires forall k :: 0 <= k < |items| ==> items[k].outputIndex == k
    ensures Fold(Idle(r, done), AllItemEvents(items, |done|)) == Some(Idle(r, done + FinishedAll(items)))
  {
    if items == [] {
      assert done + [] == done;
    } else {
      var init, last := items[..|items| - 1], items[|items| - 1];
      assert items == init + [last];
      FoldItems(r, done, init);
      FinishedMore(init, last);
      AllItemEventsLast(init, last, |done|);
      FoldOneMore(r, done, AllItemEvents(init, |done|), FinishedAll(init), last, |done|);
    }
  }

  lemma FinishedMore(items: seq<OutputItem>, last: OutputItem)
    ensures FinishedAll(items + [last]) == FinishedAll(items) + [Finished(last.item)]
  {
  }

  predicate AnyCall(items: seq<Item>) {
    exists i :: 0 <= i < |items| && items[i].CallItem?
  }

  lemma NumberedCalls(items: seq<Item>)
    ensures HasCall(Numbered(items)) <==> AnyCall(items)
  {
    var numbered := Numbered(items);
    if AnyCall(items) {
      var i :| 0 <= i < |items| && items[i].CallItem?;
      assert numbered[i].item.CallItem?;
    }
    if HasCall(numbered) {
      var i :| 0 <= i < |numbered| && numbered[i].item.CallItem?;
      assert items[i].CallItem?;
    }
  }

  /** The item list of a stream: a reasoning item in front if and only if some item is a call. */
  function StreamShapes(items: seq<Item>, reasoningId: string): (shapes: seq<Shape>)
    ensures
      var offset := if AnyCall(items) then 1 else 0;
      && |shapes| == |items| + offset
      && (offset == 1 ==> shapes[0] == Reasoning(reasoningId))
      && forall k :: 0 <= k < |items| ==> shapes[k + offset] == Finished(items[k])
  {
    (if AnyCall(items) then [Reasoning(reasoningId)] else []) + FinishedAll(Numbered(items))
  }

  /**
   * A client that builds items from the added, delta and done events alone ends with exactly the
   * translated items.  Item k stands at index k, or at k + 1 behind a reasoning item if and only if
   * some item is a call; items never overlap.
   */
  lemma StreamRebuildsResponse(response: Response, items: seq<Item>, reasoningId: string)
    ensures
      Fold(FRESH, Events(response, Numbered(items), reasoningId))
      == Some(Client(Some(response), StreamShapes(items, reasoningId), Ended))
  {
    var numbered := Numbered(items);
    NumberedCalls(items);
    var start, end := [Created(response), InProgress], [Completed(response), EndMarker];
    var reasoning, body := ReasoningEvents(numbered, reasoningId), AllItemEvents(numbered, Offset(numbered));
    var front := if AnyCall(items) then [Reasoning(reasoningId)] else [];
    var shapes := StreamShapes(items, reasoningId);
    FoldTwo(FRESH, start[0], start[1]);
    FoldReasoning(response, numbered, reasoningId);
    FoldItems(response, front, numbered);
    FoldThree(FRESH, start, reasoning, body, Idle(response, []), Idle(response, front), Idle(response, shapes));
    FoldEnd(response, shapes);
    FoldAppend(FRESH, start + reasoning + body, end);
  }

  /**
   * For the response and the items that a reply translator returns together, the folded list is the
   * response's own output if and only if no item is a call; otherwise it has the reasoning item in front.
   */
  lemma StreamMatchesOutput(response: Response, reasoningId: string)
    ensures
      var client := Fold(FRESH, Events(response, Numbered(response.output), reasoningId));
      var output := FinishedAll(Numbered(response.output));
      && client.Some? && client.value.announced == Some(response) && client.value.stage.Ended?
      && (client.value.finished == output <==> !AnyCall(response.output))
      && (AnyCall(response.output) ==> client.value.finished == [Reasoning(reasoningId)] + output)
  {
    StreamRebuildsResponse(response, response.output, reasoningId);
    var output := FinishedAll(Numbered(response.output));
    assert [] + output == output;
    assert |[Reasoning(reasoningId)] + output| == |output| + 1;
  }

  lemma FoldEnd(response: Response, shapes: seq<Shape>)
    ensures
      Fold(Idle(response, shapes), [Completed(response), EndMarker]) == Some(Client(Some(response), shapes, Ended))
  {
    FoldTwo(Idle(response, shapes), Completed(response), EndMarker);
  }

  lemma FoldReasoning(r: Response, items: seq<OutputItem>, reasoningId: string)
    ensures
      Fold(Idle(r, []), ReasoningEvents(items, reasoningId))
      == Some(Idle(r, if HasCall(items) then [Reasoning(reasoningId)] else []))
  {
    var shape := Reasoning(reasoningId);
    assert [] + [shape] == [shape];
    FoldTwo(Idle(r, []), ItemAdded(0, shape), ItemDone(0, shape));
    assert Step(Idle(r, []), ItemAdded(0, shape)) == Some(AtWork(r, [], shape, Begun));
  }

  lemma NothingAfterEnd(c: Client, events: seq<Event>)
    ensures c.stage.Ended? && events != [] ==> Fold(c, events).None?
  {
    if events != [] {
      assert c.stage.Ended? ==> Step(c, events[0]).None?;
    }
  }

  /** A stream cut short is still in order, and the client can tell that it did not end. */
  lemma CutStreamIsKnown(response: Response, items: seq<Item>, reasoningId: string, got: seq<Event>)
    requires got < Events(response, Numbered(items), reasoningId)
    ensures Fold(FRESH, got).Some? && !Fold(FRESH, got).value.stage.Ended?
  {
    var events := Events(response, Numbered(items), reasoningId);
    StreamRebuildsResponse(response, items, reasoningId);
    var rest := events[|got|..];
    assert events == got + rest;
    FoldAppend(FRESH, got, rest);
    if Fold(FRESH, got).Some? {
      NothingAfterEnd(Fold(FRESH, got).value, rest);
    }
  }
}
