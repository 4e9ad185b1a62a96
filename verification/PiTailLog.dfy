/**
 * The log writer that shortens repeated message_update events.  Each such event carries the whole
 * text accumulated so far; the writer keeps the last text per (response, content index, field) and
 * writes only the new tail when the old text is a prefix of the new one.
 */
module PiTailLog {
  import opened Text
  import opened Json

  const MARKER := "adc_log_filter"
  const MARKER_MESSAGE := "earlier repeated message_update events dropped"

  /** The accumulated text one event reports. */
  datatype Accumulated = Accumulated(responseId: string, contentIndex: int, field: string, value: string) {
    function Key(): string {
      At().Key()
    }

    function At(): Slot {
      Slot(responseId, contentIndex, field)
    }
  }

  /** Where an accumulated text belongs. */
  datatype Slot = Slot(responseId: string, contentIndex: int, field: string) {
    /** The key of the writer's memory: the three parts joined by colons. */
    function Key(): string {
      responseId + ":" + Itoa(contentIndex) + ":" + field
    }
  }

  // ----- reading an event -----

  function Int(j: Json): Option<int> {
    if j.Num? && -MAX_INT64 - 1 <= j.n <= MAX_INT64 then Some(j.n) else None
  }

  function ContentItem(message: Object, i: int): Option<Object> {
    var content := Get(message, "content");
    if !content.Arr? || i < 0 || i >= |content.items| then None else AsObject(content.items[i])
  }

  function ContentString(message: Object, i: int): Option<(string, string)> {
    match ContentItem(message, i)
    case None => None
    case Some(item) =>
      if Get(item, "thinking").Str? then Some(("thinking", item["thinking"].s))
      else if Get(item, "text").Str? then Some(("text", item["text"].s))
      else None
  }

  function ResponseId(event: Object, partial: Object): string {
    var id := AsText(Get(partial, "responseId"));
    if id != "" then id
    else
      match AsObject(Get(event, "message"))
      case Some(message) => AsText(Get(message, "responseId"))
      case None => ""
  }

  function UpdateContent(event: Object): (r: Option<Accumulated>)
    ensures r.Some? ==> r.value.responseId != "" && r.value.contentIndex >= 0
    ensures r.Some? ==> r.value.field in {"thinking", "text"}
  {
    match AsObject(Get(event, "assistantMessageEvent"))
    case None => None
    case Some(assistantEvent) =>
      match (Int(Get(assistantEvent, "contentIndex")), AsObject(Get(assistantEvent, "partial")))
      case (Some(i), Some(partial)) =>
        var id := ResponseId(event, partial);
        if id == "" then None
        else
          (match ContentString(partial, i)
           case Some((field, value)) => Some(Accumulated(id, i, field, value))
           case None => None)
      case _ => None
  }

  /** The accumulated text of a message_update event; None for every other JSON value. */
  function EventContent(j: Json): Option<Accumulated> {
    if j.Obj? && AsText(Get(j.fields, "type")) == "message_update" then UpdateContent(j.fields) else None
  }

  // ----- replacing the accumulated text -----

  /** Whether this message holds exactly the accumulated text c.value in c's field. */
  predicate Holds(message: Object, c: Accumulated) {
    var id := AsText(Get(message, "responseId"));
    && (id == "" || id == c.responseId)
    && var item := ContentItem(message, c.contentIndex);
       item.Some? && Get(item.value, c.field) == Str(c.value)
  }

  function ReplaceString(message: Object, c: Accumulated, tail: string): (Object, nat) {
    if Holds(message, c) then
      var items := message["content"].items;
      var item := items[c.contentIndex].fields[c.field := Str(tail)];
      (message["content" := Arr(items[c.contentIndex := Obj(item)])], 1)
    else
      (message, 0)
  }

  /** ReplaceString on the message stored under a key, when there is one. */
  function ReplaceUnder(parent: Object, key: string, c: Accumulated, tail: string): (Object, nat) {
    match AsObject(Get(parent, key))
    case None => (parent, 0)
    case Some(message) =>
      var (message', n) := ReplaceString(message, c, tail);
      (parent[key := Obj(message')], n)
  }

  function ReplaceAccumulated(event: Object, c: Accumulated, tail: string): (Object, nat) {
    var (event1, n1) :=
      match AsObject(Get(event, "assistantMessageEvent"))
      case None => (event, 0)
      case Some(assistantEvent) =>
        var (a, n) := ReplaceBoth(assistantEvent, c, tail);
        (event["assistantMessageEvent" := Obj(a)], n);
    var (event2, n2) := ReplaceUnder(event1, "message", c, tail);
    (event2, n1 + n2)
  }

  function ReplaceBoth(assistantEvent: Object, c: Accumulated, tail: string): (Object, nat) {
    var (a1, n1) := ReplaceUnder(assistantEvent, "partial", c, tail);
    var (a2, n2) := ReplaceUnder(a1, "message", c, tail);
    (a2, n1 + n2)
  }

  function Marker(c: Accumulated, previous: string, tail: string, replaced: nat): Json {
    Obj(map[
      "message" := Str(MARKER_MESSAGE),
      "response_id" := Str(c.responseId),
      "content_index" := Num(c.contentIndex),
      "field" := Str(c.field),
      "dropped_prefix_bytes" := Num(Utf8Length(previous)),
      "tail_bytes" := Num(Utf8Length(tail)),
      "replaced_fields" := Num(replaced)])
  }

  /** The event written in place of one whose text extends previous. */
  function Shortened(event: Object, c: Accumulated, previous: string): Object
    requires previous <= c.value
  {
    var tail := c.value[|previous|..];
    var (event', replaced) := ReplaceAccumulated(event, c, tail);
    event'[MARKER := Marker(c, previous, tail, replaced)]
  }

  type Memory = map<string, string>

  /** Whether the writer shortens an event with content c. */
  predicate Repeats(previous: Memory, c: Accumulated) {
    c.Key() in previous && previous[c.Key()] != "" && previous[c.Key()] <= c.value
  }

  /** What the writer remembers and writes for one line. */
  function Filtered(codec: Codec<seq<byte>>, previous: Memory, line: seq<byte>): (Memory, seq<byte>) {
    match codec.decode(line)
    case None => (previous, line)
    case Some(j) =>
      match EventContent(j)
      case None => (previous, line)
      case Some(c) =>
        var remembered := previous[c.Key() := c.value];
        if Repeats(previous, c) then
          (remembered, codec.encode(Obj(Shortened(j.fields, c, previous[c.Key()]))))
        else
          (remembered, line)
  }

  // ----- facts about one event -----

  /** The message the content was read from always holds it, so every shortening replaces something. */
  lemma AlwaysReplaces(event: Object, tail: string)
    requires UpdateContent(event).Some?
    ensures ReplaceAccumulated(event, UpdateContent(event).value, tail).1 > 0
  {
    var c := UpdateContent(event).value;
    var partial := event["assistantMessageEvent"].fields["partial"].fields;
    assert Holds(partial, c);
  }

  /** A shortened event reports the same slot, with the tail as its text. */
  lemma ContentOfReplaced(event: Object, tail: string)
    requires UpdateContent(event).Some?
    ensures
      var c := UpdateContent(event).value;
      UpdateContent(ReplaceAccumulated(event, c, tail).0) == Some(c.(value := tail))
  {
    var c := UpdateContent(event).value;
    var event' := ReplaceAccumulated(event, c, tail).0;
    var partial := event["assistantMessageEvent"].fields["partial"].fields;
    assert Holds(partial, c);
    var partial' := ReplaceString(partial, c, tail).0;
    assert event'["assistantMessageEvent"].fields["partial"] == Obj(partial');
    assert ContentString(partial', c.contentIndex) == Some((c.field, tail));
    assert ResponseId(event', partial') == ResponseId(event, partial);
  }

  // ----- reading the log back -----

  type Known = map<Slot, string>

  type Report = Option<(Slot, string)>

  /** The accumulated text a line of the unfiltered log reports. */
  function Reported(codec: Codec<seq<byte>>, line: seq<byte>): Report {
    match codec.decode(line)
    case None => None
    case Some(j) =>
      match EventContent(j)
      case None => None
      case Some(c) => Some((c.At(), c.value))
  }

  /** A reader of the filtered log: it appends a marked text to what it knows of the same slot. */
  function Recovered(codec: Codec<seq<byte>>, known: Known, line: seq<byte>): (Known, Report) {
    match codec.decode(line)
    case None => (known, None)
    case Some(j) =>
      match EventContent(j)
      case None => (known, None)
      case Some(c) => Learned(known, c, MARKER in j.fields)
  }

  function Learned(known: Known, c: Accumulated, marked: bool): (Known, Report) {
    var full := if marked && c.At() in known then known[c.At()] + c.value else c.value;
    (known[c.At() := full], Some((c.At(), full)))
  }

  predicate WellNamed(s: Slot) {
    ':' !in s.field
  }

  /** The writer's memory and the reader's hold the same texts. */
  ghost predicate Agree(previous: Memory, known: Known) {
    && (forall s :: s in known ==> WellNamed(s) && s.Key() in previous && previous[s.Key()] == known[s])
    && (forall k :: k in previous ==> exists s :: s in known && s.Key() == k)
  }

  lemma DigitsHaveNoColon(n: int)
    ensures ':' !in Itoa(n)
  {
  }

  lemma ItoaInjective(a: int, b: int)
    requires Itoa(a) == Itoa(b)
    ensures a == b
  {
    var da, db := Decimal(if a < 0 then -a else a), Decimal(if b < 0 then -b else b);
    assert IsDigit(da[0]) && IsDigit(db[0]);
    assert (a < 0) == (b < 0);
    assert da == (if a < 0 then Itoa(a)[1..] else Itoa(a));
    assert db == (if b < 0 then Itoa(b)[1..] else Itoa(b));
    ValueOfDecimal(if a < 0 then -a else a);
    ValueOfDecimal(if b < 0 then -b else b);
  }

  /** A text splits at its last colon in one way only. */
  lemma LastColon(x1: string, y1: string, x2: string, y2: string)
    requires x1 + ":" + y1 == x2 + ":" + y2
    requires ':' !in y1 && ':' !in y2
    ensures x1 == x2 && y1 == y2
  {
    var s := x1 + ":" + y1;
    assert y1 == s[|x1| + 1..] && y2 == s[|x2| + 1..];
    assert s[|x1|] == ':' && s[|x2|] == ':';
    assert x1 == s[..|x1|] && x2 == s[..|x2|];
  }

  /** The joined key determines the slot, whatever colons the response id contains. */
  lemma KeyInjective(a: Slot, b: Slot)
    requires WellNamed(a) && WellNamed(b) && a.Key() == b.Key()
    ensures a == b
  {
    LastColon(a.responseId + ":" + Itoa(a.contentIndex), a.field, b.responseId + ":" + Itoa(b.contentIndex), b.field);
    DigitsHaveNoColon(a.contentIndex);
    DigitsHaveNoColon(b.contentIndex);
    LastColon(a.responseId, Itoa(a.contentIndex), b.responseId, Itoa(b.contentIndex));
    ItoaInjective(a.contentIndex, b.contentIndex);
  }

  lemma AgreeUpdate(previous: Memory, known: Known, s: Slot, text: string)
    requires Agree(previous, known) && WellNamed(s)
    ensures Agree(previous[s.Key() := text], known[s := text])
    ensures s.Key() in previous <==> s in known
  {
    forall t | t in known && t.Key() == s.Key() ensures t == s {
      KeyInjective(t, s);
    }
    var known1 := known[s := text];
    var previous1 := previous[s.Key() := text];
    forall k | k in previous1 ensures exists t :: t in known1 && t.Key() == k {
      if k == s.Key() {
        assert s in known1;
      } else {
        var t :| t in known && t.Key() == k;
        assert t in known1;
      }
    }
  }

  /** A line that is written unchanged although it carries a marker of its own and its slot has a text. */
  predicate Misleads(codec: Codec<seq<byte>>, previous: Memory, line: seq<byte>) {
    match codec.decode(line)
    case None => false
    case Some(j) =>
      var c := EventContent(j);
      && c.Some? && MARKER in j.fields && !Repeats(previous, c.value)
      && c.value.Key() in previous && previous[c.value.Key()] != ""
  }

  predicate MarkerFree(codec: Codec<seq<byte>>, line: seq<byte>) {
    var j := codec.decode(line);
    j.Some? && j.value.Obj? ==> MARKER !in j.value.fields
  }

  /** A shortened event is a marked message_update whose text is the tail. */
  lemma ContentOfShortened(event: Object, head: string)
    requires EventContent(Obj(event)).Some? && head <= EventContent(Obj(event)).value.value
    ensures
      var c := EventContent(Obj(event)).value;
      var shortened := Shortened(event, c, head);
      EventContent(Obj(shortened)) == Some(c.(value := c.value[|head|..])) && MARKER in shortened
  {
    var c := EventContent(Obj(event)).value;
    var tail := c.value[|head|..];
    var replaced := ReplaceAccumulated(event, c, tail).0;
    var shortened := Shortened(event, c, head);
    ContentOfReplaced(event, tail);
    SameContent(shortened, replaced);
  }

  /** The content of an event depends on two of its fields only. */
  lemma SameContent(event1: Object, event2: Object)
    requires Get(event1, "assistantMessageEvent") == Get(event2, "assistantMessageEvent")
    requires Get(event1, "message") == Get(event2, "message")
    ensures UpdateContent(event1) == UpdateContent(event2)
  {
  }

  /** The reader turns the tail of a remembered text back into the full text. */
  lemma TailLearned(previous: Memory, known: Known, c: Accumulated)
    requires Agree(previous, known) && WellNamed(c.At()) && Repeats(previous, c)
    ensures
      Learned(known, c.(value := c.value[|previous[c.Key()]|..]), true)
      == (known[c.At() := c.value], Some((c.At(), c.value)))
  {
    AgreeUpdate(previous, known, c.At(), c.value);
    assert known[c.At()] == previous[c.At().Key()];
    HeadAndTail(known, c, previous[c.Key()]);
  }

  lemma HeadAndTail(known: Known, c: Accumulated, head: string)
    requires c.At() in known && known[c.At()] == head && head <= c.value
    ensures
      Learned(known, c.(value := c.value[|head|..]), true) == (known[c.At() := c.value], Some((c.At(), c.value)))
  {
    assert head + c.value[|head|..] == c.value;
  }

  lemma NothingInFront(front: string, s: string)
    ensures front + s == s <==> front == ""
  {
    assert |front + s| == |front| + |s|;
  }

  /** A line that the writer leaves as it is. */
  lemma PlainLearned(previous: Memory, known: Known, c: Accumulated, marked: bool)
    requires Agree(previous, known) && WellNamed(c.At())
    ensures
      var (known', report) := Learned(known, c, marked);
      var misleads := marked && c.Key() in previous && previous[c.Key()] != "";
      && (report == Some((c.At(), c.value)) <==> !misleads)
      && (!misleads ==> known' == known[c.At() := c.value])
  {
    AgreeUpdate(previous, known, c.At(), c.value);
    if c.At() in known {
      NothingInFront(known[c.At()], c.value);
    }
  }

  /** Whatever marked line reports the tail of a remembered text. */
  lemma TailRecovered(codec: Codec<seq<byte>>, previous: Memory, known: Known, line: seq<byte>, c: Accumulated)
    requires Agree(previous, known) && WellNamed(c.At()) && Repeats(previous, c)
    requires codec.decode(line).Some? && codec.decode(line).value.Obj? && MARKER in codec.decode(line).value.fields
    requires EventContent(codec.decode(line).value) == Some(c.(value := c.value[|previous[c.Key()]|..]))
    ensures Recovered(codec, known, line) == (known[c.At() := c.value], Some((c.At(), c.value)))
  {
    TailLearned(previous, known, c);
  }

  /** What the reader makes of what the writer wrote for one line. */
  function Relayed(codec: Codec<seq<byte>>, previous: Memory, known: Known, line: seq<byte>): (Known, Report) {
    Recovered(codec, known, Filtered(codec, previous, line).1)
  }

  /** What is written for a repeated text is a marked line with the tail. */
  lemma RepeatWritten(codec: Codec<seq<byte>>, previous: Memory, line: seq<byte>, event: Object, c: Accumulated)
    requires Faithful(codec) && codec.decode(line) == Some(Obj(event))
    requires EventContent(Obj(event)) == Some(c) && Repeats(previous, c)
    ensures
      var j := codec.decode(Filtered(codec, previous, line).1);
      && j.Some? && j.value.Obj? && MARKER in j.value.fields
      && EventContent(j.value) == Some(c.(value := c.value[|previous[c.Key()]|..]))
  {
    var shortened := Shortened(event, c, previous[c.Key()]);
    assert codec.decode(codec.encode(Obj(shortened))) == Some(Obj(shortened));
    ContentOfShortened(event, previous[c.Key()]);
  }

  lemma ContentWellNamed(event: Object)
    ensures UpdateContent(event).Some? ==> WellNamed(UpdateContent(event).value.At())
  {
    FieldsHaveNoColon();
  }

  lemma FieldsHaveNoColon()
    ensures ':' !in "thinking" && ':' !in "text"
  {
  }

  lemma RelayedRepeat(
    codec: Codec<seq<byte>>, previous: Memory, known: Known, line: seq<byte>, event: Object, c: Accumulated)
    requires Faithful(codec) && Agree(previous, known) && codec.decode(line) == Some(Obj(event))
    requires EventContent(Obj(event)) == Some(c) && Repeats(previous, c)
    ensures Relayed(codec, previous, known, line) == (known[c.At() := c.value], Some((c.At(), c.value)))
  {
    ContentWellNamed(event);
    RepeatWritten(codec, previous, line, event, c);
    TailRecovered(codec, previous, known, Filtered(codec, previous, line).1, c);
  }

  lemma RelayedPlain(codec: Codec<seq<byte>>, previous: Memory, known: Known, line: seq<byte>, event: Object)
    requires codec.decode(line) == Some(Obj(event))
    requires EventContent(Obj(event)).Some? && !Repeats(previous, EventContent(Obj(event)).value)
    ensures Relayed(codec, previous, known, line) == Learned(known, EventContent(Obj(event)).value, MARKER in event)
  {
  }

  /** One line: the reader reports the event's full text exactly when the line does not mislead it. */
  lemma LineRecovered(codec: Codec<seq<byte>>, previous: Memory, known: Known, line: seq<byte>)
    requires Faithful(codec) && Agree(previous, known)
    ensures
      var (known', report) := Relayed(codec, previous, known, line);
      && (report == Reported(codec, line) <==> !Misleads(codec, previous, line))
      && (!Misleads(codec, previous, line) ==> Agree(Filtered(codec, previous, line).0, known'))
  {
    var j := codec.decode(line);
    if j.Some? && EventContent(j.value).Some? {
      var c := EventContent(j.value).value;
      AgreeUpdate(previous, known, c.At(), c.value);
      if Repeats(previous, c) {
        RelayedRepeat(codec, previous, known, line, j.value.fields, c);
      } else {
        RelayedPlain(codec, previous, known, line, j.value.fields);
        PlainLearned(previous, known, c, MARKER in j.value.fields);
      }
    }
  }
}
