/**
 * Whether a whole event can be rebuilt from its shortened form.  The marker tells how many texts were
 * cut, but not in which of the event's three messages they stood.
 */
module PiTailLogRebuild {
  import opened Text
  import opened Json
  import opened PiTailLog

  /** The messages of an event: assistantMessageEvent.partial, assistantMessageEvent.message, and message. */
  datatype Place = AtPartial | AtInner | AtOuter

  function MessageAt(event: Object, place: Place): Option<Object> {
    match place
    case AtOuter => AsObject(Get(event, "message"))
    case _ =>
      match AsObject(Get(event, "assistantMessageEvent"))
      case None => None
      case Some(assistantEvent) => AsObject(Get(assistantEvent, if place.AtPartial? then "partial" else "message"))
  }

  /** Whether the message at this place holds exactly the text of c. */
  predicate HoldsAt(event: Object, place: Place, c: Accumulated) {
    var message := MessageAt(event, place);
    message.Some? && Holds(message.value, c)
  }

  /** The event with another message at a place where it has one. */
  function Put(event: Object, place: Place, message: Object): Object
    requires MessageAt(event, place).Some?
  {
    match place
    case AtOuter => event["message" := Obj(message)]
    case _ =>
      var key := if place.AtPartial? then "partial" else "message";
      event["assistantMessageEvent" := Obj(event["assistantMessageEvent"].fields[key := Obj(message)])]
  }

  /** ReplaceString on the message at this place. */
  function ReplaceAt(event: Object, place: Place, c: Accumulated, tail: string): Object {
    match MessageAt(event, place)
    case None => event
    case Some(message) => Put(event, place, ReplaceString(message, c, tail).0)
  }

  function CountAt(event: Object, place: Place, c: Accumulated): nat {
    if HoldsAt(event, place, c) then 1 else 0
  }

  // ----- one replacement -----

  /** Putting a message changes the message at that place, and no other. */
  lemma PutGet(event: Object, place: Place, message: Object, other: Place)
    requires MessageAt(event, place).Some?
    ensures
      MessageAt(Put(event, place, message), other) == if other == place then Some(message) else MessageAt(event, other)
  {
  }

  lemma PutSame(event: Object, place: Place)
    requires MessageAt(event, place).Some?
    ensures Put(event, place, MessageAt(event, place).value) == event
  {
    var m := MessageAt(event, place).value;
    if place.AtOuter? {
      assert event["message"] == Obj(m);
    } else {
      var a := event["assistantMessageEvent"].fields;
      var key := if place.AtPartial? then "partial" else "message";
      assert a[key := Obj(m)] == a;
    }
  }

  lemma PutTwice(event: Object, place: Place, m1: Object, m2: Object)
    requires MessageAt(event, place).Some?
    ensures MessageAt(Put(event, place, m1), place).Some?
    ensures Put(Put(event, place, m1), place, m2) == Put(event, place, m2)
  {
    PutGet(event, place, m1, place);
    if !place.AtOuter? {
      var a := event["assistantMessageEvent"].fields;
      var key := if place.AtPartial? then "partial" else "message";
      assert a[key := Obj(m1)][key := Obj(m2)] == a[key := Obj(m2)];
    }
  }

  lemma UpdatesCommute(m: Object, key1: string, j1: Json, key2: string, j2: Json)
    requires key1 != key2
    ensures m[key1 := j1][key2 := j2] == m[key2 := j2][key1 := j1]
  {
  }

  lemma PutCommutes(event: Object, place1: Place, m1: Object, place2: Place, m2: Object)
    requires place1 != place2 && MessageAt(event, place1).Some? && MessageAt(event, place2).Some?
    ensures MessageAt(Put(event, place1, m1), place2).Some? && MessageAt(Put(event, place2, m2), place1).Some?
    ensures Put(Put(event, place1, m1), place2, m2) == Put(Put(event, place2, m2), place1, m1)
  {
    PutGet(event, place1, m1, place2);
    PutGet(event, place2, m2, place1);
    if place1.AtOuter? {
      OuterCommutes(event, m1, place2, m2);
    } else if place2.AtOuter? {
      OuterCommutes(event, m2, place1, m1);
    } else if place1.AtPartial? {
      InnerCommutes(event, m1, m2);
    } else {
      InnerCommutes(event, m2, m1);
    }
  }

  lemma OuterCommutes(event: Object, outer: Object, place: Place, m: Object)
    requires !place.AtOuter? && MessageAt(event, AtOuter).Some? && MessageAt(event, place).Some?
    ensures MessageAt(Put(event, AtOuter, outer), place).Some? && MessageAt(Put(event, place, m), AtOuter).Some?
    ensures Put(Put(event, AtOuter, outer), place, m) == Put(Put(event, place, m), AtOuter, outer)
  {
    PutGet(event, AtOuter, outer, place);
    PutGet(event, place, m, AtOuter);
    var key := if place.AtPartial? then "partial" else "message";
    var a := event["assistantMessageEvent"].fields[key := Obj(m)];
    UpdatesCommute(event, "message", Obj(outer), "assistantMessageEvent", Obj(a));
  }

  lemma InnerCommutes(event: Object, partial: Object, inner: Object)
    requires MessageAt(event, AtPartial).Some? && MessageAt(event, AtInner).Some?
    ensures MessageAt(Put(event, AtPartial, partial), AtInner).Some?
    ensures MessageAt(Put(event, AtInner, inner), AtPartial).Some?
    ensures Put(Put(event, AtPartial, partial), AtInner, inner) == Put(Put(event, AtInner, inner), AtPartial, partial)
  {
    PutGet(event, AtPartial, partial, AtInner);
    PutGet(event, AtInner, inner, AtPartial);
    var a := event["assistantMessageEvent"].fields;
    UpdatesCommute(a, "partial", Obj(partial), "message", Obj(inner));
  }

  lemma OthersStay(event: Object, place: Place, c: Accumulated, tail: string, other: Place)
    requires place != other
    ensures MessageAt(ReplaceAt(event, place, c, tail), other) == MessageAt(event, other)
  {
    if MessageAt(event, place).Some? {
      PutGet(event, place, ReplaceString(MessageAt(event, place).value, c, tail).0, other);
    }
  }

  lemma NothingReplaced(event: Object, place: Place, c: Accumulated, tail: string)
    requires !HoldsAt(event, place, c)
    ensures ReplaceAt(event, place, c, tail) == event
  {
    if MessageAt(event, place).Some? {
      PutSame(event, place);
    }
  }

  /** One replacement inside the assistant event. */
  lemma UnderIsAt(event: Object, place: Place, c: Accumulated, tail: string)
    requires !place.AtOuter? && AsObject(Get(event, "assistantMessageEvent")).Some?
    ensures
      var a := event["assistantMessageEvent"].fields;
      var (a', n) := ReplaceUnder(a, if place.AtPartial? then "partial" else "message", c, tail);
      ReplaceAt(event, place, c, tail) == event["assistantMessageEvent" := Obj(a')] && n == CountAt(event, place, c)
  {
    assert event["assistantMessageEvent" := event["assistantMessageEvent"]] == event;
  }

  /** The two replacements inside the assistant event, or none when there is no assistant event. */
  lemma BothInTurn(event: Object, c: Accumulated, tail: string)
    ensures
      var (event2, n) :=
        match AsObject(Get(event, "assistantMessageEvent"))
        case None => (event, 0)
        case Some(a) =>
          var (a', n) := ReplaceBoth(a, c, tail);
          (event["assistantMessageEvent" := Obj(a')], n);
      && event2 == ReplaceAt(ReplaceAt(event, AtPartial, c, tail), AtInner, c, tail)
      && n == CountAt(event, AtPartial, c) + CountAt(event, AtInner, c)
  {
    OthersStay(event, AtPartial, c, tail, AtInner);
    if AsObject(Get(event, "assistantMessageEvent")).Some? {
      UnderIsAt(event, AtPartial, c, tail);
      UnderIsAt(ReplaceAt(event, AtPartial, c, tail), AtInner, c, tail);
    }
  }

  /** The replacement visits the three places one after another and counts where it finds the text. */
  lemma ReplacedInTurn(event: Object, c: Accumulated, tail: string)
    ensures
      ReplaceAccumulated(event, c, tail).0
      == ReplaceAt(ReplaceAt(ReplaceAt(event, AtPartial, c, tail), AtInner, c, tail), AtOuter, c, tail)
    ensures
      ReplaceAccumulated(event, c, tail).1
      == CountAt(event, AtPartial, c) + CountAt(event, AtInner, c) + CountAt(event, AtOuter, c)
  {
    var event1 := ReplaceAt(event, AtPartial, c, tail);
    OthersStay(event, AtPartial, c, tail, AtOuter);
    OthersStay(event1, AtInner, c, tail, AtOuter);
    BothInTurn(event, c, tail);
    OuterIsAt(ReplaceAt(event1, AtInner, c, tail), c, tail);
  }

  lemma OuterIsAt(event: Object, c: Accumulated, tail: string)
    ensures ReplaceUnder(event, "message", c, tail) == (ReplaceAt(event, AtOuter, c, tail), CountAt(event, AtOuter, c))
  {
  }

  /** What one replacement puts in, the replacement the other way round takes out again. */
  lemma UndoString(message: Object, c: Accumulated, tail: string)
    requires Holds(message, c)
    ensures
      var shortened, message1 := c.(value := tail), ReplaceString(message, c, tail).0;
      Holds(message1, shortened) && ReplaceString(message1, shortened, c.value).0 == message
  {
    var message1 := ReplaceString(message, c, tail).0;
    var items := message["content"].items;
    var item := items[c.contentIndex].fields;
    var items1 := message1["content"].items;
    assert items1[c.contentIndex] == Obj(item[c.field := Str(tail)]);
    assert item[c.field := Str(tail)][c.field := Str(c.value)] == item;
    assert items1[c.contentIndex := Obj(item)] == items;
  }

  lemma UndoAt(event: Object, place: Place, c: Accumulated, tail: string)
    requires HoldsAt(event, place, c)
    ensures
      var shortened, event1 := c.(value := tail), ReplaceAt(event, place, c, tail);
      HoldsAt(event1, place, shortened) && ReplaceAt(event1, place, shortened, c.value) == event
  {
    var message := MessageAt(event, place).value;
    var message1 := ReplaceString(message, c, tail).0;
    UndoString(message, c, tail);
    PutGet(event, place, message1, place);
    PutTwice(event, place, message1, message);
    PutSame(event, place);
  }

  lemma ReplaceCommutes(
    event: Object, place1: Place, c1: Accumulated, t1: string, place2: Place, c2: Accumulated, t2: string)
    requires place1 != place2
    ensures ReplaceAt(ReplaceAt(event, place1, c1, t1), place2, c2, t2)
         == ReplaceAt(ReplaceAt(event, place2, c2, t2), place1, c1, t1)
  {
    OthersStay(event, place1, c1, t1, place2);
    OthersStay(event, place2, c2, t2, place1);
    if MessageAt(event, place1).Some? && MessageAt(event, place2).Some? {
      var m1 := ReplaceString(MessageAt(event, place1).value, c1, t1).0;
      var m2 := ReplaceString(MessageAt(event, place2).value, c2, t2).0;
      PutCommutes(event, place1, m1, place2, m2);
    }
  }

  /** After the whole replacement each message is the old one with the tail in place of the text. */
  lemma MessageReplaced(event: Object, c: Accumulated, tail: string, place: Place)
    ensures
      MessageAt(ReplaceAccumulated(event, c, tail).0, place)
      == match MessageAt(event, place)
         case None => None
         case Some(message) => Some(ReplaceString(message, c, tail).0)
  {
    ReplacedInTurn(event, c, tail);
    var event1 := ReplaceAt(event, AtPartial, c, tail);
    var event2 := ReplaceAt(event1, AtInner, c, tail);
    OneReplaced(event, AtPartial, c, tail, place);
    OneReplaced(event1, AtInner, c, tail, place);
    OneReplaced(event2, AtOuter, c, tail, place);
  }

  lemma OneReplaced(event: Object, at: Place, c: Accumulated, tail: string, place: Place)
    ensures
      MessageAt(ReplaceAt(event, at, c, tail), place)
      == match MessageAt(event, place)
         case None => None
         case Some(message) => Some(if place == at then ReplaceString(message, c, tail).0 else message)
  {
    if MessageAt(event, at).Some? {
      PutGet(event, at, ReplaceString(MessageAt(event, at).value, c, tail).0, place);
    }
  }

  /** The tail stands where it stood before and where the text was cut. */
  lemma TailStands(event: Object, c: Accumulated, tail: string, place: Place)
    requires tail != c.value
    ensures
      var shortened := c.(value := tail);
      HoldsAt(ReplaceAccumulated(event, c, tail).0, place, shortened)
      <==> HoldsAt(event, place, c) || HoldsAt(event, place, shortened)
  {
    MessageReplaced(event, c, tail, place);
    if HoldsAt(event, place, c) {
      UndoString(MessageAt(event, place).value, c, tail);
    }
  }

  // ----- a reader of whole events -----

  /** How many texts the marker says were cut. */
  function CutCount(event: Object): Option<int> {
    match AsObject(Get(event, MARKER))
    case None => None
    case Some(marker) => Int(Get(marker, "replaced_fields"))
  }

  /** Puts the full text back at as many places as it was cut from: first the partial message, which always held it. */
  function PutFullBack(event: Object, shortened: Accumulated, full: string, cuts: int): Object {
    var event1 := ReplaceAt(event, AtPartial, shortened, full);
    if cuts == 1 then event1
    else if cuts == 2 then
      ReplaceAt(event1, if HoldsAt(event, AtInner, shortened) then AtInner else AtOuter, shortened, full)
    else ReplaceAt(ReplaceAt(event1, AtInner, shortened, full), AtOuter, shortened, full)
  }

  /** A reader that knows the full text of a shortened event rebuilds the event. */
  function Restored(event: Object, full: string): Object {
    match (UpdateContent(event), CutCount(event))
    case (Some(shortened), Some(cuts)) => PutFullBack(event - {MARKER}, shortened, full, cuts)
    case _ => event
  }

  /** One of the two other messages holds the text, and the other already held the tail. */
  predicate Ambiguous(event: Object, c: Accumulated, tail: string) {
    var shortened := c.(value := tail);
    || (HoldsAt(event, AtInner, c) && HoldsAt(event, AtOuter, shortened))
    || (HoldsAt(event, AtInner, shortened) && HoldsAt(event, AtOuter, c))
  }

  /** A replacement at one place is undone also behind replacements at two others. */
  lemma UndoBehind(event: Object, p: Place, q: Place, r: Place, c: Accumulated, tail: string)
    requires HoldsAt(event, p, c) && p != q && p != r
    ensures
      ReplaceAt(
        ReplaceAt(ReplaceAt(ReplaceAt(event, p, c, tail), q, c, tail), r, c, tail), p, c.(value := tail), c.value)
      == ReplaceAt(ReplaceAt(event, q, c, tail), r, c, tail)
  {
    var shortened := c.(value := tail);
    var event1 := ReplaceAt(event, p, c, tail);
    UndoAt(event, p, c, tail);
    ReplaceCommutes(event1, q, c, tail, p, shortened, c.value);
    ReplaceCommutes(ReplaceAt(event1, q, c, tail), r, c, tail, p, shortened, c.value);
  }

  lemma PutFullBackUndoes(event: Object, c: Accumulated, tail: string)
    requires tail != c.value && HoldsAt(event, AtPartial, c) && !Ambiguous(event, c, tail)
    ensures
      var (cut, n) := ReplaceAccumulated(event, c, tail);
      PutFullBack(cut, c.(value := tail), c.value, n) == event
  {
    var shortened := c.(value := tail);
    var cut := ReplaceAccumulated(event, c, tail).0;
    var inner := ReplaceAt(event, AtInner, c, tail);
    ReplacedInTurn(event, c, tail);
    UndoBehind(event, AtPartial, AtInner, AtOuter, c, tail);
    assert ReplaceAt(cut, AtPartial, shortened, c.value) == ReplaceAt(inner, AtOuter, c, tail);
    TailStands(event, c, tail, AtInner);
    OuterUndone(event, c, tail);
    if HoldsAt(event, AtInner, c) {
      InnerUndone(event, c, tail);
    } else {
      NothingReplaced(event, AtInner, c, tail);
    }
  }

  lemma OuterUndone(event: Object, c: Accumulated, tail: string)
    ensures
      var event1 := ReplaceAt(event, AtOuter, c, tail);
      if HoldsAt(event, AtOuter, c) then ReplaceAt(event1, AtOuter, c.(value := tail), c.value) == event
      else event1 == event
  {
    if HoldsAt(event, AtOuter, c) {
      UndoAt(event, AtOuter, c, tail);
    } else {
      NothingReplaced(event, AtOuter, c, tail);
    }
  }

  lemma InnerUndone(event: Object, c: Accumulated, tail: string)
    requires HoldsAt(event, AtInner, c)
    ensures
      ReplaceAt(ReplaceAt(ReplaceAt(event, AtInner, c, tail), AtOuter, c, tail), AtInner, c.(value := tail), c.value)
      == ReplaceAt(event, AtOuter, c, tail)
  {
    UndoAt(event, AtInner, c, tail);
    ReplaceCommutes(ReplaceAt(event, AtInner, c, tail), AtOuter, c, tail, AtInner, c.(value := tail), c.value);
  }

  // ----- what a shortened event still shows -----

  /** An event that the writer can shorten: it has no marker yet and its text extends previous. */
  predicate Shortenable(event: Object, c: Accumulated, previous: string) {
    MARKER !in event && EventContent(Obj(event)) == Some(c) && previous != "" && previous <= c.value
  }

  lemma PartialHolds(event: Object)
    requires UpdateContent(event).Some?
    ensures HoldsAt(event, AtPartial, UpdateContent(event).value)
  {
  }

  lemma NoMarkerPut(event: Object, place: Place, c: Accumulated, tail: string)
    requires MARKER !in event
    ensures MARKER !in ReplaceAt(event, place, c, tail)
  {
  }

  lemma NoMarkerReplaced(event: Object, c: Accumulated, tail: string)
    requires MARKER !in event
    ensures MARKER !in ReplaceAccumulated(event, c, tail).0
  {
    ReplacedInTurn(event, c, tail);
    var event1 := ReplaceAt(event, AtPartial, c, tail);
    NoMarkerPut(event, AtPartial, c, tail);
    NoMarkerPut(event1, AtInner, c, tail);
    NoMarkerPut(ReplaceAt(event1, AtInner, c, tail), AtOuter, c, tail);
  }

  /** The marker comes off again, and gives the count; the event below it reports the tail. */
  lemma ShortenedShows(event: Object, c: Accumulated, previous: string)
    requires Shortenable(event, c, previous)
    ensures
      var (cut, n) := ReplaceAccumulated(event, c, c.value[|previous|..]);
      var shortened := Shortened(event, c, previous);
      && shortened - {MARKER} == cut
      && CutCount(shortened) == Some(n)
      && UpdateContent(shortened) == Some(c.(value := c.value[|previous|..]))
  {
    var tail := c.value[|previous|..];
    var (cut, n) := ReplaceAccumulated(event, c, tail);
    ReplacedInTurn(event, c, tail);
    NoMarkerReplaced(event, c, tail);
    assert cut[MARKER := Marker(c, previous, tail, n)] - {MARKER} == cut;
    ContentOfShortened(event, previous);
  }

  /** Unless it is ambiguous which texts were cut, the reader rebuilds the whole event. */
  lemma RestoredUnlessAmbiguous(event: Object, c: Accumulated, previous: string)
    requires Shortenable(event, c, previous) && !Ambiguous(event, c, c.value[|previous|..])
    ensures Restored(Shortened(event, c, previous), c.value) == event
  {
    ShortenedShows(event, c, previous);
    PartialHolds(event);
    PutFullBackUndoes(event, c, c.value[|previous|..]);
  }

  /** The ambiguity can be seen in the log: two cuts, and the tail stands in all three messages. */
  predicate Unclear(shortened: Object) {
    var c := UpdateContent(shortened);
    && c.Some? && CutCount(shortened) == Some(2)
    && HoldsAt(shortened, AtInner, c.value) && HoldsAt(shortened, AtOuter, c.value)
  }

  lemma AmbiguityShows(event: Object, c: Accumulated, previous: string)
    requires Shortenable(event, c, previous)
    ensures Ambiguous(event, c, c.value[|previous|..]) <==> Unclear(Shortened(event, c, previous))
  {
    var tail := c.value[|previous|..];
    ShortenedShows(event, c, previous);
    PartialHolds(event);
    ReplacedInTurn(event, c, tail);
    TailStands(event, c, tail, AtInner);
    TailStands(event, c, tail, AtOuter);
    MarkerElsewhere(Shortened(event, c, previous), AtInner);
    MarkerElsewhere(Shortened(event, c, previous), AtOuter);
  }

  lemma MarkerElsewhere(event: Object, place: Place)
    ensures MessageAt(event - {MARKER}, place) == MessageAt(event, place)
  {
  }

  // ----- events with one shortened form -----

  /** Another event without marker that reports the same text and is shortened to the same. */
  predicate Twins(event: Object, other: Object, c: Accumulated, previous: string) {
    && Shortenable(event, c, previous) && Shortenable(other, c, previous)
    && other != event && Shortened(other, c, previous) == Shortened(event, c, previous)
  }

  /** The text moved from the message that holds it to the other one, and the tail back. */
  function Moved(event: Object, from: Place, to: Place, c: Accumulated, tail: string): Object {
    ReplaceAt(ReplaceAt(event, from, c, tail), to, c.(value := tail), c.value)
  }

  /** The content is read from the partial message; from the others only the response id matters. */
  lemma ContentElsewhere(event: Object, place: Place, c: Accumulated, tail: string)
    requires place != AtPartial
    ensures EventContent(Obj(ReplaceAt(event, place, c, tail))) == EventContent(Obj(event))
  {
    match MessageAt(event, place)
    case None =>
    case Some(message) =>
      var message' := ReplaceString(message, c, tail).0;
      var event' := Put(event, place, message');
      assert Get(message', "responseId") == Get(message, "responseId");
      PutGet(event, place, message', AtPartial);
      PutGet(event, place, message', AtOuter);
      SamePartial(event, event');
  }

  lemma SamePartial(event: Object, event': Object)
    requires Get(event', "type") == Get(event, "type")
    requires MessageAt(event', AtPartial) == MessageAt(event, AtPartial)
    requires ContentIndex(event') == ContentIndex(event) && OuterId(event') == OuterId(event)
    ensures EventContent(Obj(event')) == EventContent(Obj(event))
  {
  }

  function ContentIndex(event: Object): Option<int> {
    match AsObject(Get(event, "assistantMessageEvent"))
    case None => None
    case Some(assistantEvent) => Int(Get(assistantEvent, "contentIndex"))
  }

  function OuterId(event: Object): string {
    match MessageAt(event, AtOuter)
    case None => ""
    case Some(message) => AsText(Get(message, "responseId"))
  }

  /** Moving the text makes a different event that holds it at the new place only. */
  lemma MovedHolds(event: Object, from: Place, to: Place, c: Accumulated, tail: string)
    requires tail != c.value && from != to && HoldsAt(event, from, c) && HoldsAt(event, to, c.(value := tail))
    ensures
      var moved := Moved(event, from, to, c, tail);
      moved != event && HoldsAt(moved, to, c) && !HoldsAt(moved, from, c) && !HoldsAt(event, to, c)
    ensures
      var moved := Moved(event, from, to, c, tail);
      ReplaceAt(moved, to, c, tail) == ReplaceAt(event, from, c, tail)
  {
    var shortened := c.(value := tail);
    var event1 := ReplaceAt(event, from, c, tail);
    UndoAt(event, from, c, tail);
    OthersStay(event, from, c, tail, to);
    UndoAt(event1, to, shortened, c.value);
    OthersStay(event1, to, shortened, c.value, from);
    assert shortened.(value := c.value) == c;
  }

  /** Only one of the two other messages holds the text: two cuts. */
  lemma CutAtOne(event: Object, from: Place, to: Place, c: Accumulated, tail: string)
    requires from != to && from != AtPartial && to != AtPartial
    requires HoldsAt(event, AtPartial, c) && HoldsAt(event, from, c) && !HoldsAt(event, to, c)
    ensures
      ReplaceAccumulated(event, c, tail) == (ReplaceAt(ReplaceAt(event, from, c, tail), AtPartial, c, tail), 2)
  {
    var event1 := ReplaceAt(event, AtPartial, c, tail);
    ReplacedInTurn(event, c, tail);
    ReplaceCommutes(event, from, c, tail, AtPartial, c, tail);
    OthersStay(event, AtPartial, c, tail, to);
    OthersStay(event1, from, c, tail, to);
    NothingReplaced(event1, to, c, tail);
    NothingReplaced(ReplaceAt(event1, from, c, tail), to, c, tail);
  }

  lemma MovedIsShortenable(event: Object, from: Place, to: Place, c: Accumulated, previous: string)
    requires Shortenable(event, c, previous) && from != AtPartial && to != AtPartial
    ensures Shortenable(Moved(event, from, to, c, c.value[|previous|..]), c, previous)
  {
    var tail := c.value[|previous|..];
    var event1 := ReplaceAt(event, from, c, tail);
    ContentElsewhere(event, from, c, tail);
    ContentElsewhere(event1, to, c.(value := tail), c.value);
    NoMarkerPut(event, from, c, tail);
    NoMarkerPut(event1, to, c.(value := tail), c.value);
  }

  /** The text and its move are cut to the same. */
  lemma MovedCut(event: Object, from: Place, to: Place, c: Accumulated, tail: string)
    requires from != to && from != AtPartial && to != AtPartial && tail != c.value
    requires HoldsAt(event, AtPartial, c) && HoldsAt(event, from, c) && HoldsAt(event, to, c.(value := tail))
    requires HoldsAt(Moved(event, from, to, c, tail), AtPartial, c)
    ensures ReplaceAccumulated(Moved(event, from, to, c, tail), c, tail) == ReplaceAccumulated(event, c, tail)
  {
    MovedHolds(event, from, to, c, tail);
    CutAtOne(event, from, to, c, tail);
    CutAtOne(Moved(event, from, to, c, tail), to, from, c, tail);
  }

  lemma MovedIsTwin(event: Object, from: Place, to: Place, c: Accumulated, previous: string)
    requires Shortenable(event, c, previous) && from != to && from != AtPartial && to != AtPartial
    requires HoldsAt(event, from, c) && HoldsAt(event, to, c.(value := c.value[|previous|..]))
    ensures Twins(event, Moved(event, from, to, c, c.value[|previous|..]), c, previous)
  {
    var tail := c.value[|previous|..];
    MovedHolds(event, from, to, c, tail);
    MovedIsShortenable(event, from, to, c, previous);
    PartialHolds(event);
    PartialHolds(Moved(event, from, to, c, tail));
    MovedCut(event, from, to, c, tail);
  }

  /**
   * Shortening forgets something about an event if and only if one of its messages besides the partial
   * one holds the text and the other already holds the tail.
   */
  lemma ShorteningForgetsIff(event: Object, c: Accumulated, previous: string)
    requires Shortenable(event, c, previous)
    ensures (exists other :: Twins(event, other, c, previous)) <==> Ambiguous(event, c, c.value[|previous|..])
  {
    var tail := c.value[|previous|..];
    if Ambiguous(event, c, tail) {
      if HoldsAt(event, AtInner, c) {
        MovedIsTwin(event, AtInner, AtOuter, c, previous);
      } else {
        MovedIsTwin(event, AtOuter, AtInner, c, previous);
      }
    } else {
      forall other | Twins(event, other, c, previous) ensures false {
        AmbiguityShows(event, c, previous);
        AmbiguityShows(other, c, previous);
        RestoredUnlessAmbiguous(event, c, previous);
        RestoredUnlessAmbiguous(other, c, previous);
      }
    }
  }

  // ----- two such events -----

  function Message(text: string): Json {
    Obj(map["content" := Arr([Obj(map["text" := Str(text)])])])
  }

  function Partial(text: string): Json {
    Obj(map["responseId" := Str("r"), "content" := Arr([Obj(map["text" := Str(text)])])])
  }

  function UpdateEvent(partial: string, assistantMessage: string, message: string): Object {
    map[
      "type" := Str("message_update"),
      "assistantMessageEvent" := Obj(map[
        "contentIndex" := Num(0),
        "partial" := Partial(partial),
        "message" := Message(assistantMessage)]),
      "message" := Message(message)]
  }

  lemma ContentOfUpdateEvent(partial: string, assistantMessage: string, message: string)
    ensures
      UpdateContent(UpdateEvent(partial, assistantMessage, message)) == Some(Accumulated("r", 0, "text", partial))
  {
    var item: Object := map["text" := Str(partial)];
    assert ContentItem(Partial(partial).fields, 0) == Some(item);
  }

  /** Two different events with one shortened form: no reader can rebuild every event. */
  lemma ShorteningForgets()
    ensures
      var event1 := UpdateEvent("ab", "ab", "b");
      var event2 := UpdateEvent("ab", "b", "ab");
      var c := Accumulated("r", 0, "text", "ab");
      && event1 != event2
      && UpdateContent(event1) == UpdateContent(event2) == Some(c)
      && Shortened(event1, c, "a") == Shortened(event2, c, "a")
  {
    var c := Accumulated("r", 0, "text", "ab");
    ContentOfUpdateEvent("ab", "ab", "b");
    ContentOfUpdateEvent("ab", "b", "ab");
    ReplacedEvent("ab", "b", c);
    ReplacedEvent("b", "ab", c);
    MessagesDiffer();
  }

  lemma MessagesDiffer()
    ensures UpdateEvent("ab", "ab", "b")["message"] != UpdateEvent("ab", "b", "ab")["message"]
  {
    assert Message("b").fields["content"].items[0].fields["text"] == Str("b");
    assert Message("ab").fields["content"].items[0].fields["text"] == Str("ab");
  }

  lemma ReplacedPartial(c: Accumulated)
    requires c == Accumulated("r", 0, "text", "ab")
    ensures ReplaceString(Partial("ab").fields, c, "b") == (Partial("b").fields, 1)
  {
    var item: Object := map["text" := Str("ab")];
    assert Partial("ab").fields["content"].items[0] == Obj(item);
    assert item["text" := Str("b")] == map["text" := Str("b")];
    assert [Obj(item)][0 := Obj(map["text" := Str("b")])] == [Obj(map["text" := Str("b")])];
    assert Partial("ab").fields["content" := Arr([Obj(map["text" := Str("b")])])] == Partial("b").fields;
  }

  /** Exactly one of the two message texts is the full text: two texts are replaced. */
  lemma ReplacedEvent(assistantMessage: string, message: string, c: Accumulated)
    requires c == Accumulated("r", 0, "text", "ab")
    requires (assistantMessage == "ab" && message == "b") || (assistantMessage == "b" && message == "ab")
    ensures ReplaceAccumulated(UpdateEvent("ab", assistantMessage, message), c, "b") == (UpdateEvent("b", "b", "b"), 2)
  {
    var event := UpdateEvent("ab", assistantMessage, message);
    var a, a' := event["assistantMessageEvent"].fields, UpdateEvent("b", "b", "b")["assistantMessageEvent"].fields;
    ReplacedMessage(assistantMessage, c);
    ReplacedMessage(message, c);
    ReplacedPartial(c);
    assert a["partial" := Partial("b")]["message" := Message("b")] == a';
    assert event["assistantMessageEvent" := Obj(a')]["message" := Message("b")] == UpdateEvent("b", "b", "b");
  }

  lemma ReplacedMessage(text: string, c: Accumulated)
    requires c == Accumulated("r", 0, "text", "ab")
    ensures
      ReplaceString(Message(text).fields, c, "b")
      == if text == "ab" then (Message("b").fields, 1) else (Message(text).fields, 0)
  {
    var item: Object := map["text" := Str(text)];
    assert Message(text).fields["content"].items[0] == Obj(item);
    if text == "ab" {
      assert item["text" := Str("b")] == map["text" := Str("b")];
      assert [Obj(item)][0 := Obj(map["text" := Str("b")])] == [Obj(map["text" := Str("b")])];
      assert Message(text).fields["content" := Arr([Obj(map["text" := Str("b")])])] == Message("b").fields;
    }
  }

  /** Two events of one slot, the second with a marker of its own and a text that does not extend the first. */
  lemma NativelyMarked() returns (event1: Object, event2: Object)
    ensures EventContent(Obj(event1)) == Some(Accumulated("r", 0, "text", "a"))
    ensures EventContent(Obj(event2)) == Some(Accumulated("r", 0, "text", "b")) && MARKER in event2
  {
    event1 := UpdateEvent("a", "a", "a");
    var plain := UpdateEvent("b", "b", "b");
    event2 := plain[MARKER := Null];
    ContentOfUpdateEvent("a", "a", "a");
    ContentOfUpdateEvent("b", "b", "b");
    SameContent(event2, plain);
  }

  // ----- lines of the log -----

  /** A line that is shortened although it is ambiguous. */
  predicate Blurs(codec: Codec<seq<byte>>, previous: Memory, line: seq<byte>) {
    match codec.decode(line)
    case None => false
    case Some(j) =>
      var c := EventContent(j);
      && c.Some? && Repeats(previous, c.value)
      && Ambiguous(j.fields, c.value, c.value.value[|previous[c.value.Key()]|..])
  }

  /** From a known memory on, a shortened event shows the content that was shortened. */
  lemma SameShortening(previous: Memory, event1: Object, c1: Accumulated, event2: Object, c2: Accumulated)
    requires EventContent(Obj(event1)) == Some(c1) && Repeats(previous, c1)
    requires EventContent(Obj(event2)) == Some(c2) && Repeats(previous, c2)
    requires Shortened(event1, c1, previous[c1.Key()]) == Shortened(event2, c2, previous[c2.Key()])
    ensures c1 == c2
  {
    ContentOfShortened(event1, previous[c1.Key()]);
    ContentOfShortened(event2, previous[c2.Key()]);
    assert c1.At() == c2.At();
    assert c1.value == previous[c1.Key()] + c1.value[|previous[c1.Key()]|..];
    assert c2.value == previous[c2.Key()] + c2.value[|previous[c2.Key()]|..];
  }

  lemma EventDetermined(previous: Memory, event1: Object, c1: Accumulated, event2: Object, c2: Accumulated)
    requires EventContent(Obj(event1)) == Some(c1) && Repeats(previous, c1) && MARKER !in event1
    requires EventContent(Obj(event2)) == Some(c2) && Repeats(previous, c2) && MARKER !in event2
    requires Shortened(event1, c1, previous[c1.Key()]) == Shortened(event2, c2, previous[c2.Key()])
    requires !Ambiguous(event1, c1, c1.value[|previous[c1.Key()]|..])
    ensures event1 == event2
  {
    SameShortening(previous, event1, c1, event2, c2);
    ShorteningForgetsIff(event1, c1, previous[c1.Key()]);
    assert !Twins(event1, event2, c1, previous[c1.Key()]);
  }

  /** The content of a line that the writer shortens. */
  function RepeatOf(codec: Codec<seq<byte>>, previous: Memory, line: seq<byte>): Option<Accumulated> {
    match codec.decode(line)
    case None => None
    case Some(j) => if EventContent(j).Some? && Repeats(previous, EventContent(j).value) then EventContent(j) else None
  }

  /** Either the line is written as it is, or what is written decodes to the shortened event. */
  lemma LineWritten(codec: Codec<seq<byte>>, previous: Memory, line: seq<byte>)
    requires Faithful(codec)
    ensures
      var (c, written) := (RepeatOf(codec, previous, line), Filtered(codec, previous, line).1);
      if c.None? then written == line
      else
        && codec.decode(line).value.Obj?
        && codec.decode(written)
           == Some(Obj(Shortened(codec.decode(line).value.fields, c.value, previous[c.value.Key()])))
  {
    var c := RepeatOf(codec, previous, line);
    if c.Some? {
      var j := Obj(Shortened(codec.decode(line).value.fields, c.value, previous[c.value.Key()]));
      assert codec.decode(codec.encode(j)) == Some(j);
    }
  }

  /** Two lines without marker for which the same is written are the same JSON, unless they are blurred. */
  lemma LineDetermined(codec: Codec<seq<byte>>, previous: Memory, line: seq<byte>, other: seq<byte>)
    requires Faithful(codec) && MarkerFree(codec, line) && MarkerFree(codec, other)
    requires Filtered(codec, previous, line).1 == Filtered(codec, previous, other).1
    requires !Blurs(codec, previous, line)
    ensures codec.decode(line) == codec.decode(other)
  {
    LineWritten(codec, previous, line);
    LineWritten(codec, previous, other);
    var c1, c2 := RepeatOf(codec, previous, line), RepeatOf(codec, previous, other);
    if c1.Some? && c2.Some? {
      EventDetermined(
        previous, codec.decode(line).value.fields, c1.value, codec.decode(other).value.fields, c2.value);
    }
  }

  lemma FilteredTwin(codec: Codec<seq<byte>>, previous: Memory, line: seq<byte>, other: seq<byte>, c: Accumulated)
    requires codec.decode(line).Some? && codec.decode(line).value.Obj?
    requires codec.decode(other).Some? && codec.decode(other).value.Obj?
    requires Repeats(previous, c)
    requires Twins(codec.decode(line).value.fields, codec.decode(other).value.fields, c, previous[c.Key()])
    ensures Filtered(codec, previous, other) == Filtered(codec, previous, line)
  {
  }

  /** For a blurred line there is another one without marker for which the same is written. */
  lemma BlurredLine(codec: Codec<seq<byte>>, previous: Memory, line: seq<byte>) returns (twin: Json)
    requires Faithful(codec) && MarkerFree(codec, line) && Blurs(codec, previous, line)
    ensures
      var other := codec.encode(twin);
      && MarkerFree(codec, other) && codec.decode(other) != codec.decode(line)
      && Filtered(codec, previous, other) == Filtered(codec, previous, line)
  {
    var event := codec.decode(line).value.fields;
    var c := RepeatOf(codec, previous, line).value;
    ShorteningForgetsIff(event, c, previous[c.Key()]);
    var other :| Twins(event, other, c, previous[c.Key()]);
    twin := Obj(other);
    assert codec.decode(codec.encode(twin)) == Some(twin);
    FilteredTwin(codec, previous, line, codec.encode(twin), c);
  }
}
