/** The rows of a log, said with positions in its bytes: where lines start and end, and which hold an event. */
module EventTailSpec {
  import opened Text
  import opened Json
  import opened LineFeed
  import opened EventTail

  /** A line of the log: it starts at o behind a newline or at the start, and ends in front of one or at the end. */
  predicate IsLine(log: seq<byte>, o: int, line: seq<byte>) {
    && 0 <= o && o + |line| <= |log| && log[o..o + |line|] == line && NEWLINE !in line
    && (o == 0 || log[o - 1] == NEWLINE)
    && (o + |line| == |log| || log[o + |line|] == NEWLINE)
  }

  /** A line holds an event when something is left of it that decodes into an object or null. */
  predicate HoldsEvent(reader: Reader, line: seq<byte>, e: Json) {
    reader.trim(line) != [] && reader.decode(reader.trim(line)) == Some(e) && (e.Obj? || e.Null?)
  }

  lemma EventIff(reader: Reader, line: seq<byte>, e: Json)
    ensures LineParser(reader)(line) == Some(e) <==> HoldsEvent(reader, line, e)
  {
  }

  /** The line stands at o among lines of which the first starts at base. */
  predicate Stands(lines: seq<seq<byte>>, base: int, o: int, line: seq<byte>)
    decreases |lines|
  {
    && lines != []
    && ((o == base && line == lines[0]) || Stands(lines[1..], base + |lines[0]| + 1, o, line))
  }

  lemma {:induction false} StandsBehind(lines: seq<seq<byte>>, base: int, o: int, line: seq<byte>)
    requires Stands(lines, base, o, line)
    ensures o >= base
    decreases |lines|
  {
    if !(o == base && line == lines[0]) {
      StandsBehind(lines[1..], base + |lines[0]| + 1, o, line);
    }
  }

  /** The rest of a log behind its first newline. */
  lemma LinesBehind(log: seq<byte>, i: nat, o: int, line: seq<byte>)
    requires i < |log| && log[i] == NEWLINE && NEWLINE !in log[..i]
    ensures
      IsLine(log, o, line)
      <==> (o == 0 && line == log[..i]) || (o > i && IsLine(log[i + 1..], o - (i + 1), line))
  {
    var rest := log[i + 1..];
    assert forall k :: 0 <= k < i ==> log[k] == log[..i][k];
    if o > i && o + |line| <= |log| {
      var p := o - (i + 1);
      assert rest[p..p + |line|] == log[o..o + |line|];
    }
    if o == 0 && IsLine(log, o, line) {
      EndsAtFirst(log, i, line);
    }
  }

  lemma EndsAtFirst(log: seq<byte>, i: nat, line: seq<byte>)
    requires i < |log| && log[i] == NEWLINE && NEWLINE !in log[..i]
    requires IsLine(log, 0, line)
    ensures line == log[..i]
  {
    assert forall k :: 0 <= k < |line| ==> line[k] == log[k];
    assert forall k :: 0 <= k < i ==> log[k] == log[..i][k];
    assert |line| == i;
  }

  lemma OnlyLine(log: seq<byte>, o: int, line: seq<byte>)
    requires NEWLINE !in log
    ensures IsLine(log, o, line) <==> o == 0 && line == log
  {
    assert log[..|log|] == log;
    if IsLine(log, o, line) {
      assert o == 0 && |line| == |log|;
    }
  }

  lemma StandsFirst(first: seq<byte>, rest: seq<seq<byte>>, base: int, behind: int, o: int, line: seq<byte>)
    requires behind == base + |first| + 1
    ensures Stands([first] + rest, base, o, line) <==> (o == base && line == first) || Stands(rest, behind, o, line)
  {
    FirstOf(first, rest);
  }

  lemma StandsAlone(only: seq<byte>, base: int, o: int, line: seq<byte>)
    ensures Stands([only], base, o, line) <==> o == base && line == only
  {
    assert [only][1..] == [];
  }

  lemma {:induction false} SplitStands(log: seq<byte>, base: int, o: int, p: int, line: seq<byte>)
    requires p == o - base
    ensures Stands(Split(log), base, o, line) <==> IsLine(log, p, line)
    decreases |log|
  {
    var i := IndexOf(log, NEWLINE);
    IndexOfFirst(log, NEWLINE);
    SplitAtFirst(log);
    if i < 0 {
      OnlyLine(log, p, line);
      StandsAlone(log, base, o, line);
    } else {
      var rest, behind, q := log[i + 1..], base + i + 1, p - (i + 1);
      StandsFirst(log[..i], Split(rest), base, behind, o, line);
      LinesBehind(log, i, p, line);
      SplitStands(rest, behind, o, q, line);
      if Stands(Split(rest), behind, o, line) {
        StandsBehind(Split(rest), behind, o, line);
      }
    }
  }

  ghost predicate RowStands(parse: Parser, lines: seq<seq<byte>>, base: int, o: int, e: Json) {
    exists line :: Stands(lines, base, o, line) && parse(line) == Some(e)
  }

  lemma {:induction false} RowsStand(parse: Parser, lines: seq<seq<byte>>, base: int, o: int, e: Json)
    ensures Row(o, e) in LineRows(parse, lines, base) <==> RowStands(parse, lines, base, o, e)
    decreases |lines|
  {
    if lines != [] {
      var behind := base + |lines[0]| + 1;
      RowsStand(parse, lines[1..], behind, o, e);
      if RowStands(parse, lines[1..], behind, o, e) {
        var line :| Stands(lines[1..], behind, o, line) && parse(line) == Some(e);
        assert Stands(lines, base, o, line);
      }
      if o == base && parse(lines[0]) == Some(e) {
        assert Stands(lines, base, o, lines[0]);
      }
    }
  }

  lemma {:induction false} RowsBehind(parse: Parser, lines: seq<seq<byte>>, base: int)
    ensures forall k :: 0 <= k < |LineRows(parse, lines, base)| ==> LineRows(parse, lines, base)[k].offset >= base
    ensures Ascending(LineRows(parse, lines, base))
    decreases |lines|
  {
    if lines != [] {
      RowsBehind(parse, lines[1..], base + |lines[0]| + 1);
    }
  }

  predicate Ascending(rows: seq<Row>) {
    forall j, k :: 0 <= j < k < |rows| ==> rows[j].offset < rows[k].offset
  }

  /**
   * The rows of a log are exactly its lines that hold an event, each at the position where its line starts, in
   * the order of the log.
   */
  lemma LogRows(reader: Reader, log: seq<byte>)
    ensures
      var rows := WindowRows(LineParser(reader), log, 0, false);
      && Ascending(rows)
      && forall o, e :: Row(o, e) in rows <==> exists line :: IsLine(log, o, line) && HoldsEvent(reader, line, e)
  {
    var parse, lines := LineParser(reader), Split(log);
    RowsBehind(parse, lines, 0);
    forall o, e
      ensures
        Row(o, e) in LineRows(parse, lines, 0) <==> exists line :: IsLine(log, o, line) && HoldsEvent(reader, line, e)
    {
      RowsStand(parse, lines, 0, o, e);
      forall line
        ensures
          Stands(lines, 0, o, line) && parse(line) == Some(e)
          <==> IsLine(log, o, line) && HoldsEvent(reader, line, e)
      {
        SplitStands(log, 0, o, o, line);
        EventIff(reader, line, e);
      }
    }
  }

  /** The cap keeps the last rows, and the newest comes first. */
  lemma NewestAre(rows: seq<Row>, max: int)
    ensures
      var newest := Newest(rows, max);
      && |newest| == (if 0 < max < |rows| then max else |rows|)
      && forall i :: 0 <= i < |newest| ==> newest[i] == rows[|rows| - 1 - i]
  {
  }

  // ----- the answer that carries the window -----

  /** "bytes ", a number that is not negative, a dash, and anything behind it. */
  ghost predicate SaysStart(header: string, start: int) {
    exists number, rest ::
      && Trim(header) == "bytes " + number + ['-'] + rest && '-' !in number
      && ParseInt64(number) == Some(start) && start >= 0
  }

  lemma HeaderParts(value: string, number: string, rest: string)
    requires '-' !in number && value == "bytes " + number + ['-'] + rest
    ensures "bytes " <= value && IndexOf(value[6..], '-') == |number| && value[6..][..|number|] == number
  {
    Assoc("bytes ", number, ['-']);
    Assoc("bytes ", number + ['-'], rest);
    assert value[6..] == number + ['-'] + rest;
    IndexBehind(number, '-', rest);
  }

  lemma HeaderCut(value: string)
    requires "bytes " <= value && IndexOf(value[6..], '-') >= 0
    ensures
      var dash := IndexOf(value[6..], '-');
      value == "bytes " + value[6..][..dash] + ['-'] + value[6..][dash + 1..] && '-' !in value[6..][..dash]
  {
    var range := value[6..];
    var dash := IndexOf(range, '-');
    IndexOfFirst(range, '-');
    Text.CutAt(range, dash);
    PrefixAndRest("bytes ", value);
    Regrouped("bytes ", range[..dash], ['-'], range[dash + 1..]);
  }

  lemma PrefixAndRest<T>(prefix: seq<T>, s: seq<T>)
    requires prefix <= s
    ensures s == prefix + s[|prefix|..]
  {
  }

  lemma Regrouped<T>(a: seq<T>, b: seq<T>, c: seq<T>, d: seq<T>)
    ensures a + (b + c + d) == a + b + c + d
  {
  }

  lemma StartIff(header: string, start: int)
    ensures ContentRangeStart(header) == Some(start) <==> SaysStart(header, start)
  {
    var value := Trim(header);
    if ContentRangeStart(header) == Some(start) {
      HeaderCut(value);
    }
    if SaysStart(header, start) {
      var number, rest :|
        && value == "bytes " + number + ['-'] + rest && '-' !in number
        && ParseInt64(number) == Some(start) && start >= 0;
      HeaderParts(value, number, rest);
    }
  }

  /** The base of a window: the start that its header says, and 0 when the header says none. */
  ghost predicate BaseIs(header: string, base: int) {
    SaysStart(header, base) || (base == 0 && forall start :: !SaysStart(header, start))
  }

  /**
   * A body that is too long and an error status have no rows; otherwise the rows are those of the body at the
   * base, without the first fragment when it is a part of the log that does not start at 0.
   */
  lemma LoadedAre(reader: Reader, response: Response, tailBytes: nat, limit: int, base: int)
    requires BaseIs(response.contentRange, base)
    ensures
      var loaded := LoadedRows(reader, response, tailBytes, limit);
      var rows := WindowRows(LineParser(reader), response.body, base, response.status == 206 && base > 0);
      && (loaded == Missing(NotBounded) <==> |response.body| > tailBytes)
      && (loaded == Missing(HttpError(response.status)) <==> |response.body| <= tailBytes && response.status >= 400)
      && (|response.body| <= tailBytes && response.status < 400 ==>
            loaded == if rows == [] then Missing(NoCompleteRecord) else Loaded(Newest(rows, limit)))
  {
    var start := ContentRangeStart(response.contentRange);
    StartIff(response.contentRange, base);
    if start.Some? {
      StartIff(response.contentRange, start.value);
    }
  }
}
