/**
 * The log writer as a whole: lines rebuilt from chunks, filtered, and handed to a destination that
 * may fail; and what a reader of the log gets back.
 */
module PiTailLogWriter {
  import opened Text
  import opened Json
  import opened PiTailLog
  import opened PiTailLogRebuild
  import opened LineFeed

  /** The filter as a function value. */
  function LineFilter(codec: Codec<seq<byte>>): Filter<Memory> {
    (previous: Memory, line: seq<byte>) => Filtered(codec, previous, line)
  }

  /** A codec for log lines: one-line encodings, and no JSON value in an empty line. */
  ghost predicate LineCodec(codec: Codec<seq<byte>>) {
    && Faithful(codec)
    && (forall j :: NEWLINE !in codec.encode(j))
    && codec.decode([]) == None
  }

  /** What a reader that starts with some knowledge makes of the lines of a log. */
  function RecoveredLines(codec: Codec<seq<byte>>, known: Known, lines: seq<seq<byte>>): seq<Report>
    decreases |lines|
  {
    if lines == [] then []
    else
      var (known', report) := Recovered(codec, known, lines[0]);
      [report] + RecoveredLines(codec, known', lines[1..])
  }

  function ReportedLines(codec: Codec<seq<byte>>, lines: seq<seq<byte>>): seq<Report> {
    if lines == [] then [] else [Reported(codec, lines[0])] + ReportedLines(codec, lines[1..])
  }

  /** A question about a line, asked with the writer's memory in front of it. */
  type LineTest = (Memory, seq<byte>) -> bool

  function Misleading(codec: Codec<seq<byte>>): LineTest {
    (previous: Memory, line: seq<byte>) => Misleads(codec, previous, line)
  }

  function Blurring(codec: Codec<seq<byte>>): LineTest {
    (previous: Memory, line: seq<byte>) => Blurs(codec, previous, line)
  }

  /** Whether some line passes the test under the memory that the writer has reached there. */
  predicate SomeLine(codec: Codec<seq<byte>>, previous: Memory, lines: seq<seq<byte>>, test: LineTest)
    decreases |lines|
  {
    && lines != []
    && (test(previous, lines[0]) || SomeLine(codec, Filtered(codec, previous, lines[0]).0, lines[1..], test))
  }

  /** Up to the first line that misleads it the reader is right, and there it is wrong. */
  lemma {:induction false} LinesRecovered(
    codec: Codec<seq<byte>>, previous: Memory, known: Known, lines: seq<seq<byte>>)
    requires Faithful(codec) && Agree(previous, known)
    ensures
      RecoveredLines(codec, known, FilteredLines(LineFilter(codec), previous, lines)) == ReportedLines(codec, lines)
      <==> !SomeLine(codec, previous, lines, Misleading(codec))
    decreases |lines|
  {
    if lines != [] {
      LineRecovered(codec, previous, known, lines[0]);
      var (previous', line) := Filtered(codec, previous, lines[0]);
      var (known', report) := Recovered(codec, known, line);
      var out := FilteredLines(LineFilter(codec), previous', lines[1..]);
      assert FilteredLines(LineFilter(codec), previous, lines) == [line] + out;
      assert ([line] + out)[1..] == out;
      if !Misleads(codec, previous, lines[0]) {
        LinesRecovered(codec, previous', known', lines[1..]);
      }
      SameLists(
        report, RecoveredLines(codec, known', out), Reported(codec, lines[0]), ReportedLines(codec, lines[1..]));
    }
  }

  lemma SameLists<T>(x: T, xs: seq<T>, y: T, ys: seq<T>)
    ensures [x] + xs == [y] + ys <==> x == y && xs == ys
  {
    assert ([x] + xs)[0] == x && ([y] + ys)[0] == y;
    assert ([x] + xs)[1..] == xs && ([y] + ys)[1..] == ys;
  }

  lemma {:induction false} NoneMisleads(codec: Codec<seq<byte>>, previous: Memory, lines: seq<seq<byte>>)
    requires forall i :: 0 <= i < |lines| ==> MarkerFree(codec, lines[i])
    ensures !SomeLine(codec, previous, lines, Misleading(codec))
    decreases |lines|
  {
    if lines != [] {
      assert MarkerFree(codec, lines[0]);
      NoneMisleads(codec, Filtered(codec, previous, lines[0]).0, lines[1..]);
    }
  }

  const START := LineState([], map[])

  /** The whole log written for some chunks and a final flush. */
  function Log(codec: Codec<seq<byte>>, chunks: seq<seq<byte>>): seq<byte> {
    var (st, out) := FeedAll(LineFilter(codec), START, chunks);
    out + Rest(LineFilter(codec), st)
  }

  /** Chunking does not matter: the log is the filter applied line by line to the whole input. */
  lemma ChunkingIndependent(codec: Codec<seq<byte>>, chunks: seq<seq<byte>>)
    requires LineCodec(codec)
    ensures Log(codec, chunks) == Joined(FilteredLines(LineFilter(codec), map[], Split(Concat(chunks))))
  {
    ChunksAreLineByLine(LineFilter(codec), map[], chunks);
  }

  lemma {:induction false} FilteredStayLines(codec: Codec<seq<byte>>, previous: Memory, lines: seq<seq<byte>>)
    requires LineCodec(codec)
    requires forall i :: 0 <= i < |lines| ==> NEWLINE !in lines[i]
    ensures forall i :: 0 <= i < |lines| ==> NEWLINE !in FilteredLines(LineFilter(codec), previous, lines)[i]
    decreases |lines|
  {
    if lines != [] {
      FilteredStayLines(codec, Filtered(codec, previous, lines[0]).0, lines[1..]);
    }
  }

  /** The log has a line for every line of the input, as the filter writes it. */
  lemma LinesOfLog(codec: Codec<seq<byte>>, chunks: seq<seq<byte>>)
    requires LineCodec(codec)
    ensures Split(Log(codec, chunks)) == FilteredLines(LineFilter(codec), map[], Split(Concat(chunks)))
  {
    ChunkingIndependent(codec, chunks);
    FilteredStayLines(codec, map[], Split(Concat(chunks)));
    SplitJoined(FilteredLines(LineFilter(codec), map[], Split(Concat(chunks))));
  }

  /**
   * From the bytes of the log, however they were chunked on the way in, a reader that starts with no
   * knowledge recovers the full text of every event, in order, if and only if no line misleads it.
   */
  lemma LogIsLossless(codec: Codec<seq<byte>>, chunks: seq<seq<byte>>)
    requires LineCodec(codec)
    ensures
      RecoveredLines(codec, map[], Split(Log(codec, chunks))) == ReportedLines(codec, Split(Concat(chunks)))
      <==> !SomeLine(codec, map[], Split(Concat(chunks)), Misleading(codec))
  {
    LinesOfLog(codec, chunks);
    LinesRecovered(codec, map[], map[], Split(Concat(chunks)));
  }

  /** Without native markers nothing is lost. */
  lemma MarkerFreeIsLossless(codec: Codec<seq<byte>>, chunks: seq<seq<byte>>)
    requires LineCodec(codec)
    requires forall line :: line in Split(Concat(chunks)) ==> MarkerFree(codec, line)
    ensures
      RecoveredLines(codec, map[], Split(Log(codec, chunks))) == ReportedLines(codec, Split(Concat(chunks)))
  {
    NoneMisleads(codec, map[], Split(Concat(chunks)));
    LogIsLossless(codec, chunks);
  }

  /**
   * Any two events of one slot, the second with a marker of its own and a text that does not extend the
   * first: the reader is wrong about the second.
   */
  lemma NativeMarkerMisleads(codec: Codec<seq<byte>>, event1: Object, event2: Object)
    requires LineCodec(codec) && MARKER in event2
    requires EventContent(Obj(event1)).Some? && EventContent(Obj(event2)).Some?
    requires
      var c1, c2 := EventContent(Obj(event1)).value, EventContent(Obj(event2)).value;
      c1.At() == c2.At() && !(c1.value <= c2.value)
    ensures
      var chunks := [codec.encode(Obj(event1)) + [NEWLINE] + codec.encode(Obj(event2))];
      RecoveredLines(codec, map[], Split(Log(codec, chunks))) != ReportedLines(codec, Split(Concat(chunks)))
  {
    var line1, line2 := codec.encode(Obj(event1)), codec.encode(Obj(event2));
    var input := line1 + [NEWLINE] + line2;
    SplitLine(line1, line2);
    SplitLine(line2, []);
    assert Concat([input]) == input;
    SecondMisleads(codec, line1, line2, event1, event2);
    LogIsLossless(codec, [input]);
  }

  lemma SecondMisleads(codec: Codec<seq<byte>>, line1: seq<byte>, line2: seq<byte>, event1: Object, event2: Object)
    requires codec.decode(line1) == Some(Obj(event1)) && codec.decode(line2) == Some(Obj(event2)) && MARKER in event2
    requires EventContent(Obj(event1)).Some? && EventContent(Obj(event2)).Some?
    requires
      var c1, c2 := EventContent(Obj(event1)).value, EventContent(Obj(event2)).value;
      c1.At() == c2.At() && !(c1.value <= c2.value)
    ensures SomeLine(codec, map[], [line1] + [line2], Misleading(codec))
  {
    var c1 := EventContent(Obj(event1)).value;
    var lines := [line1] + [line2];
    assert lines[0] == line1 && lines[1..] == [line2];
    assert Filtered(codec, map[], line1).0 == map[c1.Key() := c1.value];
    assert Misleads(codec, map[c1.Key() := c1.value], line2);
    assert SomeLine(codec, map[c1.Key() := c1.value], [line2], Misleading(codec));
  }

  /** Whatever the codec, some input is recovered wrongly. */
  lemma NativeMarkerLoses(codec: Codec<seq<byte>>) returns (chunks: seq<seq<byte>>)
    requires LineCodec(codec)
    ensures RecoveredLines(codec, map[], Split(Log(codec, chunks))) != ReportedLines(codec, Split(Concat(chunks)))
  {
    var event1, event2 := NativelyMarked();
    assert "a"[0] != "b"[0];
    NativeMarkerMisleads(codec, event1, event2);
    chunks := [codec.encode(Obj(event1)) + [NEWLINE] + codec.encode(Obj(event2))];
  }

  // ----- whole events -----

  function DecodedLines(codec: Codec<seq<byte>>, lines: seq<seq<byte>>): seq<Option<Json>> {
    if lines == [] then [] else [codec.decode(lines[0])] + DecodedLines(codec, lines[1..])
  }

  predicate AllMarkerFree(codec: Codec<seq<byte>>, lines: seq<seq<byte>>) {
    forall i :: 0 <= i < |lines| ==> MarkerFree(codec, lines[i])
  }

  lemma {:induction false} LinesDetermined(
    codec: Codec<seq<byte>>, previous: Memory, lines: seq<seq<byte>>, others: seq<seq<byte>>)
    requires Faithful(codec) && AllMarkerFree(codec, lines) && AllMarkerFree(codec, others)
    requires
      FilteredLines(LineFilter(codec), previous, lines) == FilteredLines(LineFilter(codec), previous, others)
    requires !SomeLine(codec, previous, lines, Blurring(codec))
    ensures DecodedLines(codec, lines) == DecodedLines(codec, others)
    decreases |lines|
  {
    if lines != [] {
      var (previous1, line1) := Filtered(codec, previous, lines[0]);
      var (previous2, line2) := Filtered(codec, previous, others[0]);
      SameLists(
        line1, FilteredLines(LineFilter(codec), previous1, lines[1..]),
        line2, FilteredLines(LineFilter(codec), previous2, others[1..]));
      LineDetermined(codec, previous, lines[0], others[0]);
      SameMemory(codec, previous, lines[0], others[0]);
      LinesDetermined(codec, previous1, lines[1..], others[1..]);
    }
  }

  lemma SameMemory(codec: Codec<seq<byte>>, previous: Memory, line: seq<byte>, other: seq<byte>)
    requires codec.decode(line) == codec.decode(other)
    ensures Filtered(codec, previous, line).0 == Filtered(codec, previous, other).0
  {
  }

  /** Lines as Split makes them, without native markers. */
  ghost predicate PlainLines(codec: Codec<seq<byte>>, lines: seq<seq<byte>>) {
    AllMarkerFree(codec, lines) && forall i :: 0 <= i < |lines| ==> NEWLINE !in lines[i]
  }

  lemma PlainFirst(codec: Codec<seq<byte>>, first: seq<byte>, rest: seq<seq<byte>>)
    ensures
      PlainLines(codec, [first] + rest)
      <==> MarkerFree(codec, first) && NEWLINE !in first && PlainLines(codec, rest)
  {
    var lines := [first] + rest;
    assert lines[0] == first && lines[1..] == rest;
    assert forall i :: 0 < i < |lines| ==> lines[i] == rest[i - 1];
    assert forall i :: 0 <= i < |rest| ==> rest[i] == lines[i + 1];
  }

  lemma {:induction false} BlurredLines(codec: Codec<seq<byte>>, previous: Memory, lines: seq<seq<byte>>)
    returns (others: seq<seq<byte>>)
    requires LineCodec(codec) && PlainLines(codec, lines) && SomeLine(codec, previous, lines, Blurring(codec))
    ensures |others| == |lines| && PlainLines(codec, others)
    ensures
      FilteredLines(LineFilter(codec), previous, others) == FilteredLines(LineFilter(codec), previous, lines)
    ensures DecodedLines(codec, others) != DecodedLines(codec, lines)
    decreases |lines|
  {
    var first, behind := lines[0], lines[1..];
    assert lines == [first] + behind;
    PlainFirst(codec, first, behind);
    var other, rest := first, behind;
    if Blurs(codec, previous, first) {
      var twin := BlurredLine(codec, previous, first);
      other := codec.encode(twin);
    } else {
      rest := BlurredLines(codec, Filtered(codec, previous, first).0, behind);
    }
    others := [other] + rest;
    PlainFirst(codec, other, rest);
    OtherLines(codec, previous, first, behind, other, rest);
  }

  /** Another first line, or other lines behind it, for which the same is written. */
  lemma OtherLines(
    codec: Codec<seq<byte>>, previous: Memory, first: seq<byte>, behind: seq<seq<byte>>, other: seq<byte>,
    rest: seq<seq<byte>>)
    requires Filtered(codec, previous, other) == Filtered(codec, previous, first)
    requires
      var memory := Filtered(codec, previous, first).0;
      FilteredLines(LineFilter(codec), memory, rest) == FilteredLines(LineFilter(codec), memory, behind)
    requires codec.decode(other) != codec.decode(first) || DecodedLines(codec, rest) != DecodedLines(codec, behind)
    ensures
      FilteredLines(LineFilter(codec), previous, [other] + rest)
      == FilteredLines(LineFilter(codec), previous, [first] + behind)
    ensures DecodedLines(codec, [other] + rest) != DecodedLines(codec, [first] + behind)
  {
    FilteredFirst(LineFilter(codec), previous, other, rest);
    FilteredFirst(LineFilter(codec), previous, first, behind);
    assert ([other] + rest)[1..] == rest && ([first] + behind)[1..] == behind;
    SameLists(codec.decode(other), DecodedLines(codec, rest), codec.decode(first), DecodedLines(codec, behind));
  }

  /** Another input without native markers that is different JSON and leaves the same log. */
  ghost predicate Confusable(codec: Codec<seq<byte>>, chunks: seq<seq<byte>>, others: seq<seq<byte>>) {
    && AllMarkerFree(codec, Split(Concat(others))) && Log(codec, others) == Log(codec, chunks)
    && DecodedLines(codec, Split(Concat(others))) != DecodedLines(codec, Split(Concat(chunks)))
  }

  /**
   * Without native markers, the log determines the JSON of every input line if and only if no line is
   * shortened although it is ambiguous which of its texts were cut.
   */
  lemma LogForgetsIff(codec: Codec<seq<byte>>, chunks: seq<seq<byte>>)
    requires LineCodec(codec) && AllMarkerFree(codec, Split(Concat(chunks)))
    ensures
      (exists others :: Confusable(codec, chunks, others))
      <==> SomeLine(codec, map[], Split(Concat(chunks)), Blurring(codec))
  {
    var lines := Split(Concat(chunks));
    LinesOfLog(codec, chunks);
    if SomeLine(codec, map[], lines, Blurring(codec)) {
      var others := BlurredLines(codec, map[], lines);
      SplitJoined(others);
      assert Concat([Joined(others)]) == Joined(others);
      ChunkingIndependent(codec, chunks);
      ChunkingIndependent(codec, [Joined(others)]);
      assert Confusable(codec, chunks, [Joined(others)]);
    } else {
      forall others | Confusable(codec, chunks, others) ensures false {
        LinesOfLog(codec, others);
        LinesDetermined(codec, map[], lines, Split(Concat(others)));
      }
    }
  }

  // ----- the writer -----

  /** An io.Writer: the n-th call accepts everything, or fails after accepting some bytes. */
  class Sink {
    const accepts: nat -> Option<nat>
    var calls: nat
    var data: seq<byte>

    constructor (accepts: nat -> Option<nat>)
      ensures data == [] && calls == 0 && this.accepts == accepts
    {
      this.accepts := accepts;
      calls, data := 0, [];
    }

    method Write(p: seq<byte>) returns (ok: bool)
      modifies this
      ensures ok <==> accepts(old(calls)).None?
      ensures calls == old(calls) + 1
      ensures ok ==> data == old(data) + p
      ensures !ok ==> old(data) <= data <= old(data) + p
    {
      match accepts(calls) {
        case None =>
          data := data + p;
          ok := true;
        case Some(n) =>
          data := data + (if n <= |p| then p[..n] else p);
          ok := false;
      }
      calls := calls + 1;
    }
  }

  /**
   * From the state start and the output had, the bytes fed were taken and their lines written; without
   * success the last of these lines may be cut.
   */
  predicate WrittenFor(
    filter: Filter<Memory>, start: LineState<Memory>, had: seq<byte>, fed: seq<byte>, end: LineState<Memory>,
    data: seq<byte>, ok: bool)
  {
    var (st, out) := Feed(filter, start, fed);
    end == st && if ok then data == had + out else had <= data <= had + out
  }

  lemma WrittenOn(
    filter: Filter<Memory>, start: LineState<Memory>, had: seq<byte>, p: seq<byte>, middle: LineState<Memory>,
    data: seq<byte>, q: seq<byte>, end: LineState<Memory>, data': seq<byte>, ok: bool)
    requires WrittenFor(filter, start, had, p, middle, data, true)
    requires WrittenFor(filter, middle, data, q, end, data', ok)
    ensures WrittenFor(filter, start, had, p + q, end, data', ok)
  {
    FeedAppend(filter, start, p, q);
    Assoc(had, Feed(filter, start, p).1, Feed(filter, middle, q).1);
  }

  class Writer {
    const codec: Codec<seq<byte>>
    const dst: Sink
    var buf: seq<byte>
    var previous: Memory

    function State(): LineState<Memory>
      reads this
    {
      LineState(buf, previous)
    }

    /** This object and its destination are where WrittenFor says. */
    predicate Fed(start: LineState<Memory>, had: seq<byte>, fed: seq<byte>, ok: bool)
      reads this, dst
    {
      WrittenFor(LineFilter(codec), start, had, fed, State(), dst.data, ok)
    }

    constructor (codec: Codec<seq<byte>>, dst: Sink)
      ensures State() == START && this.codec == codec && this.dst == dst
    {
      this.codec, this.dst := codec, dst;
      buf, previous := [], map[];
    }

    /**
     * Feeds p.  On success all of p counts as written.  On failure the count ends just behind the
     * line whose writing failed; that line is gone from the buffer and may be cut in the destination.
     */
    method Write(p: seq<byte>) returns (written: nat, ok: bool)
      modifies this, dst
      ensures written <= |p|
      ensures ok ==> written == |p|
      ensures !ok ==> written > 0 && p[written - 1] == NEWLINE && buf == []
      ensures Fed(old(State()), old(dst.data), p[..written], ok)
    {
      ghost var start, had, fed := State(), dst.data, [];
      written, ok := 0, true;
      var rest := p;
      while |rest| > 0
        invariant ok && written == |fed| && fed + rest == p
        invariant Fed(start, had, fed, true)
        decreases |rest|
      {
        var index := IndexOf(rest, NEWLINE);
        IndexOfFirst(rest, NEWLINE);
        if index < 0 {
          KeepRest(rest, start, had, fed);
          written := written + |rest|;
          assert p[..written] == p;
          return;
        }
        var line := rest[..index];
        ok := EndLine(line, start, had, fed);
        written := written + index + 1;
        fed := fed + (line + [NEWLINE]);
        rest := rest[index + 1..];
        assert p == fed + rest;
        if !ok {
          assert p[..written] == fed;
          return;
        }
      }
      assert p[..written] == fed;
    }

    /** The last turn of Write: what has no newline waits for the rest of its line. */
    method KeepRest(rest: seq<byte>, ghost start: LineState<Memory>, ghost had: seq<byte>, ghost fed: seq<byte>)
      requires NEWLINE !in rest && Fed(start, had, fed, true)
      modifies this`buf
      ensures Fed(start, had, fed + rest, true)
    {
      FeedOn(LineFilter(codec), start, fed, rest);
      buf := buf + rest;
    }

    /** Every other turn of Write: the line is complete. */
    method EndLine(line: seq<byte>, ghost start: LineState<Memory>, ghost had: seq<byte>, ghost fed: seq<byte>)
      returns (ok: bool)
      requires NEWLINE !in line && Fed(start, had, fed, true)
      modifies this, dst
      ensures Fed(start, had, fed + (line + [NEWLINE]), ok) && buf == []
    {
      FeedOn(LineFilter(codec), start, fed, line);
      buf := buf + line;
      Assoc(had, Feed(LineFilter(codec), start, fed).1, Filtered(codec, previous, buf).1 + [NEWLINE]);
      ok := WriteBufferedLine(true);
    }

    /** Writes the unfinished line, if there is one. */
    method Flush() returns (ok: bool)
      modifies this, dst
      ensures old(buf) == [] ==> ok
      ensures State() == old(if buf == [] then State() else LineState([], Filtered(codec, previous, buf).0))
      ensures
        var wanted := old(dst.data) + Rest(LineFilter(codec), old(State()));
        if ok then dst.data == wanted else old(dst.data) <= dst.data <= wanted
    {
      if |buf| == 0 {
        return true;
      }
      ok := WriteBufferedLine(false);
    }

    method WriteBufferedLine(newline: bool) returns (ok: bool)
      modifies this, dst
      ensures
        var (previous', line) := old(Filtered(codec, previous, buf));
        && State() == LineState([], previous')
        && var wanted := old(dst.data) + (if newline then line + [NEWLINE] else line);
           if ok then dst.data == wanted else old(dst.data) <= dst.data <= wanted
    {
      var line := FilterLine(buf);
      buf := [];
      ghost var had := dst.data;
      assert had + (line + [NEWLINE]) == had + line + [NEWLINE];
      ok := dst.Write(line);
      if ok && newline {
        ok := dst.Write([NEWLINE]);
      }
    }

    method FilterLine(line: seq<byte>) returns (out: seq<byte>)
      modifies this`previous
      ensures (previous, out) == Filtered(codec, old(previous), line)
    {
      var decoded := codec.decode(line);
      if decoded.None? {
        return line;
      }
      var content := EventContent(decoded.value);
      if content.None? {
        return line;
      }
      var c := content.value;
      var key := c.Key();
      var found := key in previous;
      var head := if found then previous[key] else "";
      previous := previous[key := c.value];
      if !found || head == "" || !(head <= c.value) {
        return line;
      }
      var tail := c.value[|head|..];
      var (event, replaced) := ReplaceAccumulated(decoded.value.fields, c, tail);
      AlwaysReplaces(decoded.value.fields, tail);
      if replaced == 0 {
        return line;
      }
      out := codec.encode(Obj(event[MARKER := Marker(c, head, tail, replaced)]));
    }
  }

  /** A process whose output goes through a writer: its chunks up to the first failure, then always a flush. */
  method LogOutput(codec: Codec<seq<byte>>, dst: Sink, chunks: seq<seq<byte>>) returns (ok: bool)
    modifies dst
    ensures ok ==> dst.data == old(dst.data) + Log(codec, chunks)
    ensures !ok ==> old(dst.data) <= dst.data <= old(dst.data) + Log(codec, chunks)
  {
    ghost var had, filter := dst.data, LineFilter(codec);
    var w := new Writer(codec, dst);
    assert had + [] == had;
    for i := 0 to |chunks|
      invariant w.codec == codec && w.dst == dst && fresh(w)
      invariant w.Fed(START, had, Concat(chunks[..i]), true)
    {
      ghost var middle, data := w.State(), dst.data;
      var written, took := w.Write(chunks[i]);
      ghost var q := chunks[i][..written];
      WrittenOn(filter, START, had, Concat(chunks[..i]), middle, data, q, w.State(), dst.data, took);
      if !took {
        PartOfLog(codec, chunks, i, written);
        var _ := w.Flush();
        return false;
      }
      assert q == chunks[i];
      ConcatNext(chunks, i);
    }
    assert chunks[..|chunks|] == chunks;
    LogIsFlushed(codec, chunks);
    Assoc(had, Feed(filter, START, Concat(chunks)).1, Rest(filter, w.State()));
    ok := w.Flush();
  }

  lemma LogIsFlushed(codec: Codec<seq<byte>>, chunks: seq<seq<byte>>)
    ensures Log(codec, chunks) == Flushed(LineFilter(codec), START, Concat(chunks))
  {
    FeedAllIsFeed(LineFilter(codec), START, chunks);
  }

  /** What is written for some chunks and a part of the next one is a prefix of the log. */
  lemma PartOfLog(codec: Codec<seq<byte>>, chunks: seq<seq<byte>>, i: nat, part: nat)
    requires i < |chunks| && part <= |chunks[i]|
    ensures Feed(LineFilter(codec), START, Concat(chunks[..i]) + chunks[i][..part]).1 <= Log(codec, chunks)
  {
    var fed, rest := Concat(chunks[..i]) + chunks[i][..part], chunks[i][part..] + Concat(chunks[i + 1..]);
    ConcatSplit(chunks, i);
    assert fed + rest == Concat(chunks[..i]) + (chunks[i] + Concat(chunks[i + 1..]));
    assert chunks[i..][0] == chunks[i] && chunks[i..][1..] == chunks[i + 1..];
    LogIsFlushed(codec, chunks);
    FedIsPrefix(LineFilter(codec), START, fed, rest);
  }
}
