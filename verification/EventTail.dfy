/**
 * Reading the newest events of an NDJSON log through a byte window at its end.  The window must
 * give rows of the whole log, at their places in the whole log.
 */
module EventTail {
  import opened Text
  import opened Json
  import opened LineFeed

  /** A row of the event table: where its line starts, and the decoded event. */
  datatype Row = Row(offset: int, event: Json)

  /** bytes.TrimSpace and json.Unmarshal. */
  datatype Reader = Reader(trim: seq<byte> -> seq<byte>, decode: seq<byte> -> Option<Json>)

  /** The event of a line: blank lines and lines that do not decode into a map (or null) have none. */
  function Event(reader: Reader, line: seq<byte>): Option<Json> {
    var trimmed := reader.trim(line);
    if |trimmed| == 0 then None
    else
      var decoded := reader.decode(trimmed);
      if decoded.Some? && (decoded.value.Obj? || decoded.value.Null?) then decoded else None
  }

  type Parser = seq<byte> -> Option<Json>

  function LineParser(reader: Reader): Parser {
    (line: seq<byte>) => Event(reader, line)
  }

  /** The rows of consecutive lines, the first of which starts at base; oldest first. */
  function LineRows(parse: Parser, lines: seq<seq<byte>>, base: int): seq<Row> {
    if lines == [] then []
    else WithRow(parse(lines[0]), base, LineRows(parse, lines[1..], base + |lines[0]| + 1))
  }

  /** The row of a line, if it has one, and the rows behind it. */
  function WithRow(event: Option<Json>, offset: int, rest: seq<Row>): seq<Row> {
    match event
    case Some(e) => [Row(offset, e)] + rest
    case None => rest
  }

  /** The rows of a window that starts at base; its first fragment is dropped on request. */
  function WindowRows(parse: Parser, raw: seq<byte>, base: int, dropFirst: bool): seq<Row> {
    var lines := Split(raw);
    if dropFirst then LineRows(parse, lines[1..], base + |lines[0]| + 1) else LineRows(parse, lines, base)
  }

  function Reversed<T>(s: seq<T>): (r: seq<T>)
    ensures |r| == |s|
    ensures forall i :: 0 <= i < |s| ==> r[i] == s[|s| - 1 - i]
  {
    if s == [] then [] else Reversed(s[1..]) + [s[0]]
  }

  /** At most max rows (all when max is not positive), newest first. */
  function Newest(rows: seq<Row>, max: int): seq<Row> {
    Reversed(if 0 < max < |rows| then rows[|rows| - max..] else rows)
  }

  // ----- the parser -----

  method ReverseInPlace(a: array<Row>)
    modifies a
    ensures a[..] == Reversed(old(a[..]))
  {
    var i, j := 0, a.Length - 1;
    while i < j
      invariant 0 <= i <= a.Length && j == a.Length - 1 - i && i <= j + 1
      invariant forall k :: 0 <= k < i || j < k < a.Length ==> a[k] == old(a[..])[a.Length - 1 - k]
      invariant forall k :: i <= k <= j ==> a[k] == old(a[..])[k]
    {
      a[i], a[j] := a[j], a[i];
      i, j := i + 1, j - 1;
    }
  }

  /** The rows of the lines from pos on; none behind the end of the text. */
  function RowsFrom(parse: Parser, raw: seq<byte>, base: int, pos: nat): seq<Row> {
    if pos > |raw| then [] else LineRows(parse, Split(raw[pos..]), base + pos)
  }

  /** The next newline (counted from pos, -1 for none) and the end of the line at pos. */
  method FindLineEnd(ghost parse: Parser, raw: seq<byte>, ghost base: int, pos: nat) returns (next: int, end: nat)
    requires pos <= |raw|
    ensures pos <= end <= |raw| && (next < 0 <==> end == |raw|)
    ensures
      RowsFrom(parse, raw, base, pos)
      == WithRow(parse(raw[pos..end]), base + pos, RowsFrom(parse, raw, base, end + 1))
  {
    next := IndexOf(raw[pos..], NEWLINE);
    end := if next >= 0 then pos + next else |raw|;
    SplitFrom(raw, pos, next);
    ghost var line := raw[pos..end];
    ghost var lines := Split(raw[pos..]);
    ghost var rest := if next >= 0 then Split(raw[end + 1..]) else [];
    assert lines == [line] + rest;
    assert RowsFrom(parse, raw, base, end + 1) == LineRows(parse, rest, base + (end + 1));
    assert RowsFrom(parse, raw, base, pos) == LineRows(parse, lines, base + pos);
    FirstRow(parse, line, rest, base + pos, base + (end + 1));
  }

  lemma FirstRow(parse: Parser, line: seq<byte>, rest: seq<seq<byte>>, base: int, behind: int)
    requires behind == base + |line| + 1
    ensures LineRows(parse, [line] + rest, base) == WithRow(parse(line), base, LineRows(parse, rest, behind))
  {
    assert ([line] + rest)[1..] == rest;
  }

  lemma SplitFrom(raw: seq<byte>, pos: nat, next: int)
    requires pos <= |raw| && next == IndexOf(raw[pos..], NEWLINE)
    ensures
      Split(raw[pos..])
      == if next < 0 then [raw[pos..|raw|]] else [raw[pos..pos + next]] + Split(raw[pos + next + 1..])
  {
    var rest := raw[pos..];
    assert rest == raw[pos..|raw|];
    if next >= 0 {
      assert rest[..next] == raw[pos..pos + next];
      assert rest[next + 1..] == raw[pos + next + 1..];
    }
    SplitAtFirst(rest);
  }

  method ReadLine(reader: Reader, raw: seq<byte>) returns (event: Option<Json>)
    ensures event == Event(reader, raw)
  {
    event := None;
    var line := reader.trim(raw);
    if |line| > 0 {
      var decoded := reader.decode(line);
      if decoded.Some? && (decoded.value.Obj? || decoded.value.Null?) {
        event := decoded;
      }
    }
  }

  /** Reads the line at pos: where it ends, whether a newline follows, and the event it holds. */
  method ReadEvent(reader: Reader, raw: seq<byte>, ghost base: int, pos: nat)
    returns (next: int, end: nat, event: Option<Json>)
    requires pos <= |raw|
    ensures pos <= end <= |raw| && (next < 0 <==> end == |raw|)
    ensures
      RowsFrom(LineParser(reader), raw, base, pos)
      == WithRow(event, base + pos, RowsFrom(LineParser(reader), raw, base, end + 1))
  {
    next, end := FindLineEnd(LineParser(reader), raw, base, pos);
    event := ReadLine(reader, raw[pos..end]);
  }

  lemma TakeRow(rows: seq<Row>, event: Option<Json>, offset: int, rest: seq<Row>)
    ensures
      rows + WithRow(event, offset, rest)
      == if event.Some? then rows + [Row(offset, event.value)] + rest else rows + rest
  {
  }

  /** One turn of the loop: the row of the line at pos, if it has one, goes to the rows so far. */
  method TakeLine(reader: Reader, raw: seq<byte>, baseOffset: int, pos: nat, before: seq<Row>)
    returns (next: int, end: nat, rows: seq<Row>)
    requires pos <= |raw|
    ensures pos <= end <= |raw| && (next < 0 <==> end == |raw|)
    ensures
      rows + RowsFrom(LineParser(reader), raw, baseOffset, end + 1)
      == before + RowsFrom(LineParser(reader), raw, baseOffset, pos)
  {
    var event;
    next, end, event := ReadEvent(reader, raw, baseOffset, pos);
    TakeRow(before, event, baseOffset + pos, RowsFrom(LineParser(reader), raw, baseOffset, end + 1));
    rows := before;
    if event.Some? {
      rows := rows + [Row(baseOffset + pos, event.value)];
    }
  }

  /** The loop over the lines of the text left after dropping a fragment. */
  method ScanLines(reader: Reader, raw: seq<byte>, baseOffset: int) returns (rows: seq<Row>)
    ensures rows == RowsFrom(LineParser(reader), raw, baseOffset, 0)
  {
    ghost var parse, all := LineParser(reader), RowsFrom(LineParser(reader), raw, baseOffset, 0);
    rows := [];
    var pos := 0;
    assert [] + all == all;
    while pos <= |raw|
      invariant 0 <= pos <= |raw| + 1
      invariant rows + RowsFrom(parse, raw, baseOffset, pos) == all
      decreases |raw| + 1 - pos
    {
      var next, end;
      next, end, rows := TakeLine(reader, raw, baseOffset, pos, rows);
      pos := end + 1;
      if next < 0 {
        break;
      }
    }
    assert rows + [] == rows;
  }

  /** Truncates to the last max rows and reverses them in place. */
  method KeepNewest(rows: seq<Row>, max: int) returns (newest: seq<Row>)
    ensures newest == Newest(rows, max)
  {
    var kept := rows;
    if max > 0 && |kept| > max {
      kept := kept[|kept| - max..];
    }
    newest := ReversedCopy(kept);
  }

  method ReversedCopy(rows: seq<Row>) returns (reversed: seq<Row>)
    ensures reversed == Reversed(rows)
  {
    var a := new Row[|rows|](i requires 0 <= i < |rows| => rows[i]);
    assert a[..] == rows;
    ReverseInPlace(a);
    reversed := a[..];
  }

  lemma DropFragment(parse: Parser, window: seq<byte>, base: int)
    ensures
      var idx := IndexOf(window, NEWLINE);
      WindowRows(parse, window, base, true)
      == if idx < 0 then [] else RowsFrom(parse, window[idx + 1..], base + idx + 1, 0)
  {
    var idx := IndexOf(window, NEWLINE);
    SplitAtFirst(window);
    if idx >= 0 {
      FirstOf(window[..idx], Split(window[idx + 1..]));
      RowsOfAll(parse, window[idx + 1..], base + idx + 1);
    }
  }

  lemma FirstOf<T>(first: T, rest: seq<T>)
    ensures ([first] + rest)[0] == first && ([first] + rest)[1..] == rest
  {
  }

  lemma RowsOfAll(parse: Parser, raw: seq<byte>, base: int)
    ensures RowsFrom(parse, raw, base, 0) == LineRows(parse, Split(raw), base)
  {
    assert raw[0..] == raw;
  }

  lemma DropNothing(parse: Parser, window: seq<byte>, base: int)
    ensures WindowRows(parse, window, base, false) == RowsFrom(parse, window, base, 0)
  {
    RowsOfAll(parse, window, base);
  }

  method EventRowsFromNDJSON(reader: Reader, window: seq<byte>, base: int, dropFirst: bool, max: int)
    returns (newest: seq<Row>)
    ensures newest == Newest(WindowRows(LineParser(reader), window, base, dropFirst), max)
  {
    var raw, baseOffset := window, base;
    if dropFirst {
      DropFragment(LineParser(reader), window, base);
      var idx := IndexOf(raw, NEWLINE);
      if idx < 0 {
        return [];
      }
      raw := raw[idx + 1..];
      baseOffset := baseOffset + idx + 1;
    }
    DropNothing(LineParser(reader), window, base);
    var rows := ScanLines(reader, raw, baseOffset);
    newest := KeepNewest(rows, max);
  }

  // ----- a window agrees with the whole log -----

  /** The bytes that lines and the newlines behind them take. */
  function Span(lines: seq<seq<byte>>): nat {
    if lines == [] then 0 else |lines[0]| + 1 + Span(lines[1..])
  }

  lemma {:induction false} SpanOfSplit(s: seq<byte>)
    ensures Span(Split(s)) == |s| + 1
  {
    if s != [] {
      SpanOfSplit(s[1..]);
      var lines := Split(s[1..]);
      assert Split(s)[1..] == if s[0] == NEWLINE then lines else lines[1..];
    }
  }

  lemma {:induction false} SpanAppend(a: seq<seq<byte>>, b: seq<seq<byte>>)
    ensures Span(a + b) == Span(a) + Span(b)
  {
    if a == [] {
      assert a + b == b;
    } else {
      assert (a + b)[1..] == a[1..] + b;
      SpanAppend(a[1..], b);
    }
  }

  lemma {:induction false} LineRowsAppend(parse: Parser, a: seq<seq<byte>>, b: seq<seq<byte>>, base: int)
    ensures LineRows(parse, a + b, base) == LineRows(parse, a, base) + LineRows(parse, b, base + Span(a))
    decreases |a|
  {
    if a == [] {
      assert a + b == b;
    } else {
      assert (a + b)[1..] == a[1..] + b;
      LineRowsAppend(parse, a[1..], b, base + |a[0]| + 1);
      if parse(a[0]).Some? {
        Assoc([Row(base, parse(a[0]).value)],
              LineRows(parse, a[1..], base + |a[0]| + 1), LineRows(parse, b, base + Span(a)));
      }
    }
  }

  /** Rows start between the start of the first line and the start of the last. */
  lemma {:induction false} RowsStartAtLines(parse: Parser, lines: seq<seq<byte>>, base: int, k: nat)
    requires k < |LineRows(parse, lines, base)|
    ensures lines != []
    ensures base <= LineRows(parse, lines, base)[k].offset <= base + Span(lines[..|lines| - 1])
    decreases |lines|
  {
    var rest := lines[1..];
    assert |lines| > 1 ==> lines[..|lines| - 1][1..] == rest[..|rest| - 1];
    if parse(lines[0]).None? {
      RowsStartAtLines(parse, rest, base + |lines[0]| + 1, k);
    } else if k > 0 {
      RowsStartAtLines(parse, rest, base + |lines[0]| + 1, k - 1);
    }
  }

  /** The window is the end of all rows, cut so that exactly the rows behind position s are in it. */
  ghost predicate CutAt(all: seq<Row>, window: seq<Row>, s: int) {
    && |window| <= |all|
    && window == all[|all| - |window|..]
    && (forall i :: 0 <= i < |all| ==> (all[i].offset > s <==> |all| - |window| <= i))
  }

  /** A window that starts at s holds exactly the rows of the log whose lines start behind s. */
  lemma WindowIsCut(parse: Parser, log: seq<byte>, s: nat)
    requires s <= |log|
    ensures CutAt(WindowRows(parse, log, 0, false), WindowRows(parse, log[s..], s, true), s)
  {
    var b := Split(log[s..]);
    var before := LinesBefore(log, s);
    LineRowsAppend(parse, before, b[1..], 0);
    var head := LineRows(parse, before, 0);
    var window := LineRows(parse, b[1..], s + |b[0]| + 1);
    forall j | 0 <= j < |head| ensures head[j].offset <= s {
      RowsStartAtLines(parse, before, 0, j);
    }
    forall j | 0 <= j < |window| ensures window[j].offset > s {
      RowsStartAtLines(parse, b[1..], s + |b[0]| + 1, j);
    }
    assert (head + window)[|head|..] == window;
  }

  /** The lines that start at s or before: the rest of the log's lines are those behind the cut. */
  lemma LinesBefore(log: seq<byte>, s: nat) returns (before: seq<seq<byte>>)
    requires s <= |log|
    ensures |before| > 0 && Split(log) == before + Split(log[s..])[1..]
    ensures Span(before[..|before| - 1]) <= s && Span(before) == s + |Split(log[s..])[0]| + 1
  {
    var a, b := Split(log[..s]), Split(log[s..]);
    var whole := a[..|a| - 1];
    before := whole + [a[|a| - 1] + b[0]];
    assert log == log[..s] + log[s..];
    SplitAppend(log[..s], log[s..]);
    SpanOfSplit(log[..s]);
    assert a == whole + [a[|a| - 1]];
    SpanAppend(whole, [a[|a| - 1]]);
    SpanAppend(whole, [a[|a| - 1] + b[0]]);
    assert before[..|before| - 1] == whole;
  }

  /** The newest rows of a cut log are the newest rows of the log, as far as the cut reaches. */
  lemma NewestOfCut(all: seq<Row>, window: seq<Row>, s: int, max: int)
    requires CutAt(all, window, s)
    ensures
      var fromWindow, fromAll := Newest(window, max), Newest(all, max);
      && fromWindow <= fromAll
      && (forall i :: 0 <= i < |fromAll| ==> (fromAll[i].offset > s <==> i < |fromWindow|))
  {
    var fromWindow, fromAll := Newest(window, max), Newest(all, max);
    assert forall i :: 0 <= i < |fromAll| ==> fromAll[i] == all[|all| - 1 - i];
    assert forall i :: 0 <= i < |fromWindow| ==> fromWindow[i] == all[|all| - 1 - i];
  }

  /**
   * Parsing the window from s on gives the newest rows of the whole log, with the same offsets and
   * the same cap, exactly up to the last one whose line starts behind s.
   */
  lemma WindowAgreesWithLog(parse: Parser, log: seq<byte>, s: nat, max: int)
    requires s <= |log|
    ensures
      var fromWindow := Newest(WindowRows(parse, log[s..], s, true), max);
      var fromLog := Newest(WindowRows(parse, log, 0, false), max);
      && fromWindow <= fromLog
      && (forall i :: 0 <= i < |fromLog| ==> (fromLog[i].offset > s <==> i < |fromWindow|))
  {
    WindowIsCut(parse, log, s);
    NewestOfCut(WindowRows(parse, log, 0, false), WindowRows(parse, log[s..], s, true), s, max);
  }

  // ----- the HTTP range around it -----

  datatype Response = Response(status: nat, contentRange: string, body: seq<byte>)

  datatype Notice = NotBounded | HttpError(status: nat) | NoCompleteRecord

  datatype Loaded = Loaded(rows: seq<Row>) | Missing(notice: Notice)

  /** The first position named by a Content-Range header. */
  function ContentRangeStart(header: string): (r: Option<int>)
    ensures r.Some? ==> 0 <= r.value <= MAX_INT64
  {
    var value := Trim(header);
    if !("bytes " <= value) then None
    else
      var range := value[|"bytes "|..];
      var dash := IndexOf(range, '-');
      if dash < 0 then None
      else
        match ParseInt64(range[..dash])
        case Some(start) => if start < 0 then None else Some(start)
        case None => None
  }

  method LoadEventTailRows(reader: Reader, response: Response, tailBytes: nat, limit: int) returns (loaded: Loaded)
    ensures loaded == LoadedRows(reader, response, tailBytes, limit)
  {
    var raw := if |response.body| <= tailBytes + 1 then response.body else response.body[..tailBytes + 1];
    if |raw| > tailBytes {
      return Missing(NotBounded);
    }
    if response.status >= 400 {
      return Missing(HttpError(response.status));
    }
    var start := ContentRangeStart(response.contentRange);
    var base := if start.Some? then start.value else 0;
    var dropFirst := response.status == 206 && start.Some? && start.value > 0;
    var rows := EventRowsFromNDJSON(reader, raw, base, dropFirst, limit);
    if |rows| == 0 {
      return Missing(NoCompleteRecord);
    }
    loaded := Loaded(rows);
  }

  function NonEmpty(rows: seq<Row>): Loaded {
    if rows == [] then Missing(NoCompleteRecord) else Loaded(rows)
  }

  function LoadedRows(reader: Reader, response: Response, tailBytes: nat, limit: int): Loaded {
    if |response.body| > tailBytes then Missing(NotBounded)
    else if response.status >= 400 then Missing(HttpError(response.status))
    else
      var start := ContentRangeStart(response.contentRange);
      var base := if start.Some? then start.value else 0;
      var dropFirst := response.status == 206 && start.Some? && start.value > 0;
      NonEmpty(Newest(WindowRows(LineParser(reader), response.body, base, dropFirst), limit))
  }

  /** A server's answer to the range "the last n bytes" (RFC 9110, sections 14.1.2 and 14.4). */
  function SuffixRange(log: seq<byte>, n: nat): Response {
    if n == 0 || log == [] then Response(416, "bytes */" + Decimal(|log|), [])
    else
      var start := if n < |log| then |log| - n else 0;
      Response(206, "bytes " + Decimal(start) + "-" + Decimal(|log| - 1) + "/" + Decimal(|log|), log[start..])
  }

  lemma RangeHeader(start: nat, rest: string)
    requires start <= MAX_INT64 && rest != "" && IsDigit(rest[|rest| - 1])
    ensures ContentRangeStart("bytes " + Decimal(start) + "-" + rest) == Some(start)
  {
    var d := Decimal(start);
    var header := "bytes " + d + "-" + rest;
    TrimNothing(header);
    var range := header[|"bytes "|..];
    assert range == d + "-" + rest;
    IndexBehind(d, '-', rest);
    assert range[..|d|] == d;
    ParseDecimal(start);
  }

  lemma Regroup(front: string, last: string, slash: string, size: string)
    ensures front + last + slash + size == front + (last + slash + size)
  {
  }

  lemma SuffixRangeStart(log: seq<byte>, n: nat)
    requires n > 0 && 0 < |log| <= MAX_INT64
    ensures ContentRangeStart(SuffixRange(log, n).contentRange) == Some(if n < |log| then |log| - n else 0)
  {
    var start := if n < |log| then |log| - n else 0;
    var last, size := Decimal(|log| - 1), Decimal(|log|);
    var rest := last + "/" + size;
    assert rest[|rest| - 1] == size[|size| - 1];
    Regroup("bytes " + Decimal(start) + "-", last, "/", size);
    RangeHeader(start, rest);
  }

  /** What the table makes of the answer to a suffix range. */
  lemma SuffixLoaded(reader: Reader, log: seq<byte>, n: nat, limit: int)
    requires n > 0 && 0 < |log| <= MAX_INT64
    ensures
      var start := if n < |log| then |log| - n else 0;
      LoadedRows(reader, SuffixRange(log, n), n, limit)
      == NonEmpty(Newest(WindowRows(LineParser(reader), log[start..], start, start > 0), limit))
  {
    SuffixRangeStart(log, n);
  }

  /**
   * End to end, against a server that honours the range: the table shows the newest rows of the
   * whole log, up to the cap, exactly those whose lines start behind the cut (all when nothing is cut).
   */
  lemma TailAgreesWithLog(reader: Reader, log: seq<byte>, n: nat, limit: int)
    requires n > 0 && 0 < |log| <= MAX_INT64
    ensures
      var newest := Newest(WindowRows(LineParser(reader), log, 0, false), limit);
      var cut := if n < |log| then |log| - n else -1;
      exists shown ::
        && LoadedRows(reader, SuffixRange(log, n), n, limit) == NonEmpty(shown)
        && shown <= newest
        && forall i :: 0 <= i < |newest| ==> (newest[i].offset > cut <==> i < |shown|)
  {
    var start := if n < |log| then |log| - n else 0;
    SuffixLoaded(reader, log, n, limit);
    var shown := ShownRows(LineParser(reader), log, start, limit);
  }

  /** The rows of the window are the newest rows of the log behind the cut, or all when nothing is cut. */
  lemma ShownRows(parse: Parser, log: seq<byte>, start: nat, limit: int) returns (shown: seq<Row>)
    requires start <= |log|
    ensures shown == Newest(WindowRows(parse, log[start..], start, start > 0), limit)
    ensures
      var newest := Newest(WindowRows(parse, log, 0, false), limit);
      && shown <= newest
      && forall i :: 0 <= i < |newest| ==> (newest[i].offset > (if start > 0 then start else -1) <==> i < |shown|)
  {
    shown := Newest(WindowRows(parse, log[start..], start, start > 0), limit);
    if start > 0 {
      WindowAgreesWithLog(parse, log, start, limit);
    } else {
      assert log[0..] == log;
      NewestInLog(parse, log, limit);
    }
  }

  /** No row starts before the log. */
  lemma NewestInLog(parse: Parser, log: seq<byte>, max: int)
    ensures
      var newest := Newest(WindowRows(parse, log, 0, false), max);
      forall i :: 0 <= i < |newest| ==> newest[i].offset >= 0
  {
    var all := WindowRows(parse, log, 0, false);
    forall j | 0 <= j < |all| ensures all[j].offset >= 0 {
      RowsStartAtLines(parse, Split(log), 0, j);
    }
  }
}
