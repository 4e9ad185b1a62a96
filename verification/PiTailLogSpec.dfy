/**
 * What the filter writes, said with nothing but paths into JSON: which events report a text, where a
 * repeated text is cut, and what the marker says.
 */
module PiTailLogSpec {
  import opened Text
  import opened Json
  import opened PiTailLog
  import opened PiTailLogRebuild
  import opened PiTailLogWriter
  import opened LineFeed

  // ----- paths -----

  datatype Key = Field(name: string) | Item(i: int)

  function Child(j: Json, key: Key): Json {
    match key
    case Field(name) => if j.Obj? then Get(j.fields, name) else Null
    case Item(i) => if j.Arr? && 0 <= i < |j.items| then j.items[i] else Null
  }

  /** What stands at a path; null when there is nothing. */
  function Reach(j: Json, path: seq<Key>): Json
    decreases |path|
  {
    if path == [] then j else Reach(Child(j, path[0]), path[1..])
  }

  function WithChild(j: Json, key: Key, child: Json): Json {
    match key
    case Field(name) => if j.Obj? then Obj(j.fields[name := child]) else j
    case Item(i) => if j.Arr? && 0 <= i < |j.items| then Arr(j.items[i := child]) else j
  }

  /** The same value but for what stands at a path. */
  function Update(j: Json, path: seq<Key>, value: Json): Json
    decreases |path|
  {
    if path == [] then value else WithChild(j, path[0], Update(Child(j, path[0]), path[1..], value))
  }

  const ASSISTANT := Field("assistantMessageEvent")

  /** Where the three messages of an event stand. */
  function MessagePath(place: Place): seq<Key> {
    match place
    case AtPartial => [ASSISTANT, Field("partial")]
    case AtInner => [ASSISTANT, Field("message")]
    case AtOuter => [Field("message")]
  }

  function TextPath(place: Place, i: int, field: string): seq<Key> {
    MessagePath(place) + [Field("content"), Item(i), Field(field)]
  }

  function IdPath(place: Place): seq<Key> {
    MessagePath(place) + [Field("responseId")]
  }

  // ----- what a log line says -----

  /**
   * A message_update reports the thinking, or else the text, at the content index of its partial message,
   * under the response id of that message, or else of the outer one.
   */
  predicate Reports(j: Json, c: Accumulated) {
    && Reach(j, [Field("type")]) == Str("message_update")
    && Reach(j, [ASSISTANT, Field("contentIndex")]) == Num(c.contentIndex) && 0 <= c.contentIndex <= MAX_INT64
    && c.responseId != ""
    && (Reach(j, IdPath(AtPartial)) == Str(c.responseId)
        || (AsText(Reach(j, IdPath(AtPartial))) == "" && Reach(j, IdPath(AtOuter)) == Str(c.responseId)))
    && Reach(j, TextPath(AtPartial, c.contentIndex, c.field)) == Str(c.value)
    && (c.field == "thinking"
        || (c.field == "text" && !Reach(j, TextPath(AtPartial, c.contentIndex, "thinking")).Str?))
  }

  /** Whether the message at this place repeats the text: at the same index and field, under no other response id. */
  predicate Cuts(j: Json, place: Place, c: Accumulated) {
    && Reach(j, TextPath(place, c.contentIndex, c.field)) == Str(c.value)
    && AsText(Reach(j, IdPath(place))) in ["", c.responseId]
  }

  function CutOnce(j: Json, place: Place, c: Accumulated, tail: string): Json {
    if Cuts(j, place, c) then Update(j, TextPath(place, c.contentIndex, c.field), Str(tail)) else j
  }

  function One(cut: bool): nat {
    if cut then 1 else 0
  }

  predicate MarkerSays(marker: Json, c: Accumulated, dropped: string, tail: string, cuts: nat) {
    && marker.Obj? && |marker.fields| == 7
    && Child(marker, Field("message")) == Str("earlier repeated message_update events dropped")
    && Child(marker, Field("response_id")) == Str(c.responseId)
    && Child(marker, Field("content_index")) == Num(c.contentIndex)
    && Child(marker, Field("field")) == Str(c.field)
    && Child(marker, Field("dropped_prefix_bytes")) == Num(Utf8Length(dropped))
    && Child(marker, Field("tail_bytes")) == Num(Utf8Length(tail))
    && Child(marker, Field("replaced_fields")) == Num(cuts)
  }

  /**
   * The second event is the first with the text cut down to the tail wherever it is repeated, and with a
   * marker; nothing else differs.
   */
  predicate IsCut(j: Json, written: Json, c: Accumulated, dropped: string) {
    && dropped <= c.value
    && var tail := c.value[|dropped|..];
       var cut := CutOnce(CutOnce(CutOnce(j, AtPartial, c, tail), AtInner, c, tail), AtOuter, c, tail);
       var marker := Child(written, Field("adc_log_filter"));
       && written == WithChild(cut, Field("adc_log_filter"), marker)
       && MarkerSays(
            marker, c, dropped, tail, One(Cuts(j, AtPartial, c)) + One(Cuts(j, AtInner, c)) + One(Cuts(j, AtOuter, c)))
  }

  // ----- paths and messages -----

  lemma {:induction false} ReachOn(j: Json, p: seq<Key>, q: seq<Key>)
    ensures Reach(j, p + q) == Reach(Reach(j, p), q)
    decreases |p|
  {
    if p == [] {
      assert p + q == q;
    } else {
      assert (p + q)[0] == p[0] && (p + q)[1..] == p[1..] + q;
      ReachOn(Child(j, p[0]), p[1..], q);
    }
  }

  lemma {:induction false} UpdateOn(j: Json, p: seq<Key>, q: seq<Key>, value: Json)
    ensures Update(j, p + q, value) == Update(j, p, Update(Reach(j, p), q, value))
    decreases |p|
  {
    if p == [] {
      assert p + q == q;
    } else {
      assert (p + q)[0] == p[0] && (p + q)[1..] == p[1..] + q;
      UpdateOn(Child(j, p[0]), p[1..], q, value);
    }
  }

  predicate Stands(j: Json, path: seq<Key>)
    decreases |path|
  {
    path == []
    || ((match path[0]
         case Field(name) => j.Obj? && name in j.fields
         case Item(i) => j.Arr? && 0 <= i < |j.items|)
        && Stands(Child(j, path[0]), path[1..]))
  }

  /** An update is seen at its path, and nowhere at a path that branches off. */
  lemma {:induction false} UpdateReached(j: Json, p: seq<Key>, value: Json, q: seq<Key>, k: nat)
    requires Stands(j, p)
    ensures Reach(Update(j, p, value), p) == value
    ensures k < |p| && k < |q| && p[..k] == q[..k] && p[k] != q[k] ==> Reach(Update(j, p, value), q) == Reach(j, q)
    decreases |p|
  {
    if p != [] {
      if k == 0 || q == [] {
        UpdateReached(Child(j, p[0]), p[1..], value, [], 0);
      } else {
        if k < |p| && k < |q| && p[..k] == q[..k] {
          assert p[1..][..k - 1] == p[..k][1..] && q[1..][..k - 1] == q[..k][1..];
          assert p[0] == p[..k][0] && q[0] == q[..k][0];
        }
        UpdateReached(Child(j, p[0]), p[1..], value, q[1..], k - 1);
      }
    }
  }

  lemma ReachOne(j: Json, a: Key)
    ensures Reach(j, [a]) == Child(j, a)
    ensures forall value :: Update(j, [a], value) == WithChild(j, a, value)
  {
    assert [a][1..] == [];
  }

  lemma ReachTwo(j: Json, a: Key, b: Key)
    ensures Reach(j, [a, b]) == Child(Child(j, a), b)
    ensures forall value :: Update(j, [a, b], value) == WithChild(j, a, WithChild(Child(j, a), b, value))
  {
    assert [a, b][1..] == [b];
    ReachOne(Child(j, a), b);
  }

  lemma ReachThree(j: Json, a: Key, b: Key, c: Key)
    ensures Reach(j, [a, b, c]) == Child(Child(Child(j, a), b), c)
    ensures
      forall value ::
        Update(j, [a, b, c], value)
        == WithChild(j, a, WithChild(Child(j, a), b, WithChild(Child(Child(j, a), b), c, value)))
  {
    assert [a, b, c][1..] == [b, c];
    ReachTwo(Child(j, a), b, c);
  }

  function MessageJson(event: Object, place: Place): Json {
    match MessageAt(event, place)
    case None => Null
    case Some(message) => Obj(message)
  }

  /** What stands behind a place: the message there, or nothing that has fields. */
  lemma PlaceReached(event: Object, place: Place)
    ensures Reach(Obj(event), MessagePath(place)).Obj? ==> MessageAt(event, place).Some?
    ensures
      MessageAt(event, place).Some? ==>
        && Reach(Obj(event), MessagePath(place)) == Obj(MessageAt(event, place).value)
        && forall m :: Update(Obj(event), MessagePath(place), Obj(m)) == Obj(Put(event, place, m))
  {
    match place
    case AtOuter => ReachOne(Obj(event), Field("message"));
    case AtPartial => ReachTwo(Obj(event), ASSISTANT, Field("partial"));
    case AtInner => ReachTwo(Obj(event), ASSISTANT, Field("message"));
  }

  lemma IdReached(event: Object, place: Place)
    ensures Reach(Obj(event), IdPath(place)) == Child(MessageJson(event, place), Field("responseId"))
  {
    ReachOn(Obj(event), MessagePath(place), [Field("responseId")]);
    ReachOne(Reach(Obj(event), MessagePath(place)), Field("responseId"));
    PlaceReached(event, place);
  }

  function TextOf(message: Object, i: int, field: string): Json {
    match ContentItem(message, i)
    case None => Null
    case Some(item) => Get(item, field)
  }

  lemma TextReached(event: Object, place: Place, i: int, field: string)
    ensures
      Reach(Obj(event), TextPath(place, i, field))
      == match MessageAt(event, place) case None => Null case Some(message) => TextOf(message, i, field)
  {
    ReachOn(Obj(event), MessagePath(place), [Field("content"), Item(i), Field(field)]);
    ReachThree(Reach(Obj(event), MessagePath(place)), Field("content"), Item(i), Field(field));
    PlaceReached(event, place);
  }

  // ----- one event -----

  /** The filter finds exactly the text that the event reports. */
  lemma ContentIff(j: Json, c: Accumulated)
    ensures Reports(j, c) <==> EventContent(j) == Some(c)
  {
    ReachOne(j, Field("type"));
    ReachTwo(j, ASSISTANT, Field("contentIndex"));
    if j.Obj? {
      IdReached(j.fields, AtPartial);
      IdReached(j.fields, AtOuter);
      TextReached(j.fields, AtPartial, c.contentIndex, c.field);
      TextReached(j.fields, AtPartial, c.contentIndex, "thinking");
      TextReached(j.fields, AtPartial, c.contentIndex, "text");
    }
  }

  lemma CutsIff(event: Object, place: Place, c: Accumulated)
    ensures Cuts(Obj(event), place, c) <==> HoldsAt(event, place, c)
  {
    IdReached(event, place);
    TextReached(event, place, c.contentIndex, c.field);
  }

  lemma CutIsReplaced(event: Object, place: Place, c: Accumulated, tail: string)
    ensures CutOnce(Obj(event), place, c, tail) == Obj(ReplaceAt(event, place, c, tail))
  {
    CutsIff(event, place, c);
    if HoldsAt(event, place, c) {
      var message := MessageAt(event, place).value;
      PlaceReached(event, place);
      UpdateOn(Obj(event), MessagePath(place), [Field("content"), Item(c.contentIndex), Field(c.field)], Str(tail));
      ReachThree(Obj(message), Field("content"), Item(c.contentIndex), Field(c.field));
    } else {
      NothingReplaced(event, place, c, tail);
    }
  }

  /** What the three replacements leave, and how many texts they found. */
  lemma AllCut(event: Object, c: Accumulated, tail: string)
    ensures
      CutOnce(CutOnce(CutOnce(Obj(event), AtPartial, c, tail), AtInner, c, tail), AtOuter, c, tail)
      == Obj(ReplaceAccumulated(event, c, tail).0)
    ensures
      One(Cuts(Obj(event), AtPartial, c)) + One(Cuts(Obj(event), AtInner, c)) + One(Cuts(Obj(event), AtOuter, c))
      == ReplaceAccumulated(event, c, tail).1
  {
    var event1 := ReplaceAt(event, AtPartial, c, tail);
    CutIsReplaced(event, AtPartial, c, tail);
    CutIsReplaced(event1, AtInner, c, tail);
    CutIsReplaced(ReplaceAt(event1, AtInner, c, tail), AtOuter, c, tail);
    ReplacedInTurn(event, c, tail);
    CutsIff(event, AtPartial, c);
    CutsIff(event, AtInner, c);
    CutsIff(event, AtOuter, c);
  }

  lemma MarkerIs(c: Accumulated, dropped: string, tail: string, cuts: nat)
    ensures MarkerSays(Marker(c, dropped, tail, cuts), c, dropped, tail, cuts)
  {
    SevenFields(Marker(c, dropped, tail, cuts));
  }

  /** The shortened event is the event cut at every place that repeats its text, and marked. */
  lemma ShortenedIsCut(event: Object, c: Accumulated, dropped: string)
    requires dropped <= c.value
    ensures IsCut(Obj(event), Obj(Shortened(event, c, dropped)), c, dropped)
  {
    var tail := c.value[|dropped|..];
    AllCut(event, c, tail);
    var (event', replaced) := ReplaceAccumulated(event, c, tail);
    MarkerIs(c, dropped, tail, replaced);
    Marked(Obj(event'), Marker(c, dropped, tail, replaced), MARKER);
    CutAndMarked(Obj(event), Obj(event'), Obj(Shortened(event, c, dropped)), c, dropped, replaced);
  }

  lemma Marked(j: Json, marker: Json, key: string)
    requires j.Obj?
    ensures
      var written := Obj(j.fields[key := marker]);
      Child(written, Field(key)) == marker && written == WithChild(j, Field(key), marker)
  {
  }

  lemma CutAndMarked(j: Json, cut: Json, written: Json, c: Accumulated, dropped: string, cuts: nat)
    requires dropped <= c.value
    requires
      var tail := c.value[|dropped|..];
      && CutOnce(CutOnce(CutOnce(j, AtPartial, c, tail), AtInner, c, tail), AtOuter, c, tail) == cut
      && One(Cuts(j, AtPartial, c)) + One(Cuts(j, AtInner, c)) + One(Cuts(j, AtOuter, c)) == cuts
      && MarkerSays(Child(written, Field(MARKER)), c, dropped, tail, cuts)
      && written == WithChild(cut, Field(MARKER), Child(written, Field(MARKER)))
    ensures IsCut(j, written, c, dropped)
  {
  }

  lemma SevenFields(marker: Json)
    requires
      marker.Obj?
      && marker.fields.Keys
         == {
              "message", "response_id", "content_index", "field", "dropped_prefix_bytes", "tail_bytes",
              "replaced_fields"}
    ensures |marker.fields| == 7
  {
    assert |marker.fields| == |marker.fields.Keys|;
  }

  // ----- the lines in front of a line -----

  /** Whether the line reports the text v of this slot. */
  predicate Says(codec: Codec<seq<byte>>, line: seq<byte>, s: Slot, v: string) {
    var j := codec.decode(line);
    j.Some? && Reports(j.value, Accumulated(s.responseId, s.contentIndex, s.field, v))
  }

  ghost predicate Silent(codec: Codec<seq<byte>>, line: seq<byte>, s: Slot) {
    forall v :: !Says(codec, line, s, v)
  }

  /** u is what the latest of the first n lines that reports a text of this slot reports. */
  ghost predicate LatestSaid(codec: Codec<seq<byte>>, lines: seq<seq<byte>>, n: nat, s: Slot, u: string)
    requires n <= |lines|
  {
    exists i ::
      && 0 <= i < n && Says(codec, lines[i], s, u)
      && forall k :: i < k < n ==> Silent(codec, lines[k], s)
  }

  lemma LatestNext(codec: Codec<seq<byte>>, lines: seq<seq<byte>>, n: nat, s: Slot, u: string)
    requires n < |lines|
    ensures
      LatestSaid(codec, lines, n + 1, s, u)
      <==> Says(codec, lines[n], s, u) || (Silent(codec, lines[n], s) && LatestSaid(codec, lines, n, s, u))
  {
  }

  /** What a filter remembers after n lines. */
  function MemoryThrough<M>(filter: Filter<M>, memory: M, lines: seq<seq<byte>>, n: nat): M
    requires n <= |lines|
  {
    if n == 0 then memory else filter(MemoryThrough(filter, memory, lines, n - 1), lines[n - 1]).0
  }

  function MemoryAfter(codec: Codec<seq<byte>>, lines: seq<seq<byte>>, n: nat): Memory
    requires n <= |lines|
  {
    MemoryThrough(LineFilter(codec), map[], lines, n)
  }

  lemma SaysIff(codec: Codec<seq<byte>>, line: seq<byte>, s: Slot, v: string)
    ensures Says(codec, line, s, v) <==> Reported(codec, line) == Some((s, v))
    ensures Says(codec, line, s, v) ==> WellNamed(s)
  {
    var j := codec.decode(line);
    if j.Some? {
      ContentIff(j.value, Accumulated(s.responseId, s.contentIndex, s.field, v));
      if j.value.Obj? {
        ContentWellNamed(j.value.fields);
      }
    }
  }

  lemma SilentIff(codec: Codec<seq<byte>>, line: seq<byte>, s: Slot)
    ensures Silent(codec, line, s) <==> Reported(codec, line).None? || Reported(codec, line).value.0 != s
  {
    forall v ensures Says(codec, line, s, v) <==> Reported(codec, line) == Some((s, v)) {
      SaysIff(codec, line, s, v);
    }
    if Reported(codec, line).Some? {
      assert Says(codec, line, Reported(codec, line).value.0, Reported(codec, line).value.1)
        by { SaysIff(codec, line, Reported(codec, line).value.0, Reported(codec, line).value.1); }
    }
  }

  lemma MemoryNext(codec: Codec<seq<byte>>, previous: Memory, line: seq<byte>)
    ensures
      Filtered(codec, previous, line).0
      == match Reported(codec, line) case None => previous case Some((s, v)) => previous[s.Key() := v]
  {
  }

  /** One line more, for what was said and for what is remembered. */
  lemma LatestAfter(codec: Codec<seq<byte>>, lines: seq<seq<byte>>, n: nat, s: Slot, u: string)
    requires n < |lines|
    ensures
      LatestSaid(codec, lines, n + 1, s, u)
      <==> match Reported(codec, lines[n])
           case None => LatestSaid(codec, lines, n, s, u)
           case Some((t, v)) => if t == s then v == u else LatestSaid(codec, lines, n, s, u)
  {
    LatestNext(codec, lines, n, s, u);
    SaysIff(codec, lines[n], s, u);
    SilentIff(codec, lines[n], s);
  }

  lemma RememberedAfter(codec: Codec<seq<byte>>, memory: Memory, line: seq<byte>, s: Slot, u: string)
    requires WellNamed(s)
    ensures
      Remembers(Filtered(codec, memory, line).0, s, u)
      <==> match Reported(codec, line)
           case None => Remembers(memory, s, u)
           case Some((t, v)) => if t == s then v == u else Remembers(memory, s, u)
  {
    MemoryNext(codec, memory, line);
    if Reported(codec, line).Some? {
      var (t, v) := Reported(codec, line).value;
      SaysIff(codec, line, t, v);
      if t.Key() == s.Key() {
        KeyInjective(t, s);
      }
    }
  }

  predicate Remembers(memory: Memory, s: Slot, u: string) {
    s.Key() in memory && memory[s.Key()] == u
  }

  /** The memory holds exactly the latest text of each slot. */
  lemma {:induction false} MemoryIsLatest(codec: Codec<seq<byte>>, lines: seq<seq<byte>>, n: nat, s: Slot, u: string)
    requires n <= |lines| && WellNamed(s)
    ensures LatestSaid(codec, lines, n, s, u) <==> Remembers(MemoryAfter(codec, lines, n), s, u)
  {
    if n > 0 {
      MemoryIsLatest(codec, lines, n - 1, s, u);
      LatestAfter(codec, lines, n - 1, s, u);
      RememberedAfter(codec, MemoryAfter(codec, lines, n - 1), lines[n - 1], s, u);
    }
  }

  /** Each line is filtered with what is remembered of the lines in front of it. */
  lemma {:induction false} FilteredAt<M>(filter: Filter<M>, memory: M, lines: seq<seq<byte>>, n: nat, j: nat)
    requires n <= j < |lines|
    ensures
      FilteredLines(filter, MemoryThrough(filter, memory, lines, n), lines[n..])[j - n]
      == filter(MemoryThrough(filter, memory, lines, j), lines[j]).1
    decreases j - n
  {
    var here := MemoryThrough(filter, memory, lines, n);
    assert lines[n..] == [lines[n]] + lines[n + 1..];
    FilteredFirst(filter, here, lines[n], lines[n + 1..]);
    if n < j {
      FilteredAt(filter, memory, lines, n + 1, j);
    }
  }

  /** The two lengths in the marker add up to the length of the full text. */
  lemma {:induction false} LengthsAddUp(a: string, b: string)
    ensures Utf8Length(a + b) == Utf8Length(a) + Utf8Length(b)
  {
    if a == "" {
      assert a + b == b;
    } else {
      assert (a + b)[1..] == a[1..] + b;
      LengthsAddUp(a[1..], b);
    }
  }

  // ----- the log -----

  /** Line j repeats, and extends or equals, the text u that the latest earlier line of its slot reports. */
  ghost predicate Repeating(
    codec: Codec<seq<byte>>, lines: seq<seq<byte>>, j: nat, s: Slot, u: string, v: string)
    requires j < |lines|
  {
    Says(codec, lines[j], s, v) && LatestSaid(codec, lines, j, s, u) && u != "" && u <= v
  }

  /** What stands in the log for a line that repeats u. */
  predicate WrittenCut(codec: Codec<seq<byte>>, line: seq<byte>, written: seq<byte>, s: Slot, u: string, v: string) {
    var event, cut := codec.decode(line), codec.decode(written);
    && event.Some? && cut.Some? && u <= v
    && Says(codec, written, s, v[|u|..])
    && IsCut(event.value, cut.value, Accumulated(s.responseId, s.contentIndex, s.field, v), u)
  }

  lemma CutWritten(codec: Codec<seq<byte>>, memory: Memory, line: seq<byte>, s: Slot, u: string, v: string)
    requires Faithful(codec)
    requires Says(codec, line, s, v) && Remembers(memory, s, u) && u != "" && u <= v
    ensures WrittenCut(codec, line, Filtered(codec, memory, line).1, s, u, v)
  {
    var c := Accumulated(s.responseId, s.contentIndex, s.field, v);
    var j := codec.decode(line).value;
    ContentIff(j, c);
    var written := Filtered(codec, memory, line).1;
    FilteredRepeat(codec, memory, line, j, c, u);
    ShortenedSays(codec, written, j.fields, c, u);
  }

  lemma FilteredRepeat(codec: Codec<seq<byte>>, memory: Memory, line: seq<byte>, j: Json, c: Accumulated, u: string)
    requires Faithful(codec) && codec.decode(line) == Some(j) && EventContent(j) == Some(c)
    requires Remembers(memory, c.At(), u) && u != "" && u <= c.value
    ensures j.Obj? && codec.decode(Filtered(codec, memory, line).1) == Some(Obj(Shortened(j.fields, c, u)))
  {
    assert Repeats(memory, c);
    var shortened := Obj(Shortened(j.fields, c, u));
    assert codec.decode(codec.encode(shortened)) == Some(shortened);
  }

  lemma ShortenedSays(codec: Codec<seq<byte>>, written: seq<byte>, event: Object, c: Accumulated, u: string)
    requires EventContent(Obj(event)) == Some(c) && u <= c.value
    requires codec.decode(written) == Some(Obj(Shortened(event, c, u)))
    ensures IsCut(Obj(event), Obj(Shortened(event, c, u)), c, u)
    ensures Says(codec, written, c.At(), c.value[|u|..])
  {
    ShortenedIsCut(event, c, u);
    ContentOfShortened(event, u);
    ContentIff(Obj(Shortened(event, c, u)), c.(value := c.value[|u|..]));
  }

  lemma PlainWritten(codec: Codec<seq<byte>>, memory: Memory, line: seq<byte>)
    requires Filtered(codec, memory, line).1 != line
    ensures
      var report := Reported(codec, line);
      && report.Some?
      && var (s, v) := report.value;
         s.Key() in memory && memory[s.Key()] != "" && memory[s.Key()] <= v
  {
  }

  /**
   * Whatever the chunks, each line of the log is the input line byte for byte, but for the lines that repeat
   * the latest text of their slot: such a line says the rest of the text, and nothing else in it differs
   * but the marker.
   */
  lemma LogShortens(codec: Codec<seq<byte>>, chunks: seq<seq<byte>>, j: nat)
    requires LineCodec(codec) && j < |Split(Concat(chunks))|
    ensures |Split(Log(codec, chunks))| == |Split(Concat(chunks))|
    ensures
      var lines, line, written := Split(Concat(chunks)), Split(Concat(chunks))[j], Split(Log(codec, chunks))[j];
      && (forall s, u, v :: Repeating(codec, lines, j, s, u, v) ==> WrittenCut(codec, line, written, s, u, v))
      && ((forall s, u, v :: !Repeating(codec, lines, j, s, u, v)) ==> written == line)
  {
    var lines := Split(Concat(chunks));
    var memory := MemoryAfter(codec, lines, j);
    LinesOfLog(codec, chunks);
    assert lines[0..] == lines;
    FilteredAt(LineFilter(codec), map[], lines, 0, j);
    var written := Filtered(codec, memory, lines[j]).1;
    forall s, u, v | Repeating(codec, lines, j, s, u, v) ensures WrittenCut(codec, lines[j], written, s, u, v) {
      SaysIff(codec, lines[j], s, v);
      MemoryIsLatest(codec, lines, j, s, u);
      CutWritten(codec, memory, lines[j], s, u, v);
    }
    if written != lines[j] {
      PlainWritten(codec, memory, lines[j]);
      var (s, v) := Reported(codec, lines[j]).value;
      SaysIff(codec, lines[j], s, v);
      MemoryIsLatest(codec, lines, j, s, memory[s.Key()]);
      assert Repeating(codec, lines, j, s, memory[s.Key()], v);
    }
  }
}
