/**
 * Line filters over byte streams.  A filter with a memory is applied line by line; feeding it one
 * byte at a time, or in any chunks, writes the same bytes.
 */
module LineFeed {
  import opened Text

  /** From what was remembered and a line to what is now remembered and the line to write. */
  type Filter<!M> = (M, seq<byte>) -> (M, seq<byte>)

  /** An empty line stays empty. */
  ghost predicate Quiet<M(!new)>(filter: Filter<M>) {
    forall m :: filter(m, []).1 == []
  }

  // ----- line by line -----

  /** bytes.Split at newlines: never empty, the last fragment is what follows the last newline. */
  function Split(s: seq<byte>): (lines: seq<seq<byte>>)
    ensures |lines| > 0
    ensures forall i :: 0 <= i < |lines| ==> NEWLINE !in lines[i]
  {
    if s == [] then [[]]
    else
      var lines := Split(s[1..]);
      if s[0] == NEWLINE then [[]] + lines else [[s[0]] + lines[0]] + lines[1..]
  }

  function Joined(lines: seq<seq<byte>>): seq<byte>
    requires |lines| > 0
  {
    if |lines| == 1 then lines[0] else lines[0] + [NEWLINE] + Joined(lines[1..])
  }

  /** The lines of two texts in a row: the last line of one and the first of the other become one. */
  function Glued(a: seq<seq<byte>>, b: seq<seq<byte>>): (lines: seq<seq<byte>>)
    requires |a| > 0 && |b| > 0
    ensures |lines| == |a| + |b| - 1
  {
    a[..|a| - 1] + [a[|a| - 1] + b[0]] + b[1..]
  }

  lemma GluedLine(line: seq<byte>, a: seq<seq<byte>>, b: seq<seq<byte>>)
    requires |a| > 0 && |b| > 0
    ensures Glued([line] + a, b) == [line] + Glued(a, b)
  {
    assert ([line] + a)[..|a|] == [line] + a[..|a| - 1];
  }

  lemma GluedByte(x: byte, a: seq<seq<byte>>, b: seq<seq<byte>>)
    requires |a| > 0 && |b| > 0
    ensures Glued([[x] + a[0]] + a[1..], b) == [[x] + Glued(a, b)[0]] + Glued(a, b)[1..]
  {
    var a' := [[x] + a[0]] + a[1..];
    var g, g' := Glued(a, b), Glued(a', b);
    if |a| == 1 {
      Assoc([x], a[0], b[0]);
      assert g'[0] == [x] + g[0];
    }
    forall i | 1 <= i < |g| ensures g'[i] == g[i] {
    }
  }

  lemma {:induction false} SplitAppend(a: seq<byte>, b: seq<byte>)
    ensures Split(a + b) == Glued(Split(a), Split(b))
  {
    if a == [] {
      assert a + b == b;
      assert [] + Split(b)[0] == Split(b)[0];
    } else {
      assert (a + b)[1..] == a[1..] + b;
      SplitAppend(a[1..], b);
      if a[0] == NEWLINE {
        GluedLine([], Split(a[1..]), Split(b));
      } else {
        GluedByte(a[0], Split(a[1..]), Split(b));
      }
    }
  }

  lemma SplitLine(line: seq<byte>, rest: seq<byte>)
    requires NEWLINE !in line
    ensures Split(line) == [line]
    ensures Split(line + [NEWLINE] + rest) == [line] + Split(rest)
  {
    SplitUnbroken(line);
    Assoc(line, [NEWLINE], rest);
    assert ([NEWLINE] + rest)[1..] == rest;
    SplitAppend(line, [NEWLINE] + rest);
    assert line + [] == line;
    assert ([[]] + Split(rest))[1..] == Split(rest);
  }

  lemma {:induction false} SplitUnbroken(line: seq<byte>)
    requires NEWLINE !in line
    ensures Split(line) == [line]
  {
    if line != [] {
      SplitUnbroken(line[1..]);
      assert [line[0]] + line[1..] == line;
    }
  }

  /** Splitting by search: the line up to the first newline, then the rest. */
  lemma SplitAtFirst(s: seq<byte>)
    ensures
      var i := IndexOf(s, NEWLINE);
      Split(s) == if i < 0 then [s] else [s[..i]] + Split(s[i + 1..])
  {
    var i := IndexOf(s, NEWLINE);
    IndexOfFirst(s, NEWLINE);
    if i < 0 {
      SplitUnbroken(s);
    } else {
      CutAt(s, i);
      SplitLine(s[..i], s[i + 1..]);
    }
  }

  lemma {:induction false} SplitJoined(lines: seq<seq<byte>>)
    requires |lines| > 0 && forall i :: 0 <= i < |lines| ==> NEWLINE !in lines[i]
    ensures Split(Joined(lines)) == lines
  {
    if |lines| == 1 {
      SplitLine(lines[0], []);
    } else {
      SplitLine(lines[0], Joined(lines[1..]));
      SplitJoined(lines[1..]);
    }
  }

  /** The filter applied to one line after another. */
  function FilteredLines<M>(filter: Filter<M>, memory: M, lines: seq<seq<byte>>): (out: seq<seq<byte>>)
    ensures |out| == |lines|
    decreases |lines|
  {
    if lines == [] then []
    else
      var (memory', line) := filter(memory, lines[0]);
      [line] + FilteredLines(filter, memory', lines[1..])
  }

  /** One line in front: what is written for it, and from the new memory on for the rest. */
  lemma FilteredFirst<M>(filter: Filter<M>, memory: M, line: seq<byte>, rest: seq<seq<byte>>)
    ensures
      FilteredLines(filter, memory, [line] + rest)
      == [filter(memory, line).1] + FilteredLines(filter, filter(memory, line).0, rest)
  {
    assert ([line] + rest)[1..] == rest;
  }

  // ----- byte by byte -----

  datatype LineState<M> = LineState(buf: seq<byte>, memory: M)

  /** The lines completed by feeding the bytes p, one byte at a time. */
  function Feed<M>(filter: Filter<M>, st: LineState<M>, p: seq<byte>): (LineState<M>, seq<byte>)
    decreases |p|
  {
    if p == [] then (st, [])
    else if p[0] != NEWLINE then Feed(filter, st.(buf := st.buf + [p[0]]), p[1..])
    else
      var (memory', line) := filter(st.memory, st.buf);
      var (st', out) := Feed(filter, LineState([], memory'), p[1..]);
      (st', line + [NEWLINE] + out)
  }

  /** What Flush still writes. */
  function Rest<M>(filter: Filter<M>, st: LineState<M>): seq<byte> {
    if st.buf == [] then [] else filter(st.memory, st.buf).1
  }

  lemma {:induction false} FeedAppend<M>(filter: Filter<M>, st: LineState<M>, p: seq<byte>, q: seq<byte>)
    ensures
      var (st1, out1) := Feed(filter, st, p);
      var (st2, out2) := Feed(filter, st1, q);
      Feed(filter, st, p + q) == (st2, out1 + out2)
    decreases |p|
  {
    if p == [] {
      assert p + q == q;
      assert [] + Feed(filter, st, q).1 == Feed(filter, st, q).1;
    } else {
      assert (p + q)[1..] == p[1..] + q;
      if p[0] != NEWLINE {
        FeedAppend(filter, st.(buf := st.buf + [p[0]]), p[1..], q);
      } else {
        var (memory', line) := filter(st.memory, st.buf);
        FeedAppend(filter, LineState([], memory'), p[1..], q);
        var (st1, out1) := Feed(filter, LineState([], memory'), p[1..]);
        var (st2, out2) := Feed(filter, st1, q);
        assert line + [NEWLINE] + (out1 + out2) == line + [NEWLINE] + out1 + out2;
      }
    }
  }

  lemma {:induction false} FeedPartial<M>(filter: Filter<M>, st: LineState<M>, p: seq<byte>)
    requires NEWLINE !in p
    ensures Feed(filter, st, p) == (st.(buf := st.buf + p), [])
    decreases |p|
  {
    if p != [] {
      FeedPartial(filter, st.(buf := st.buf + [p[0]]), p[1..]);
      assert st.buf + [p[0]] + p[1..] == st.buf + p;
    } else {
      assert st.buf + p == st.buf;
    }
  }

  lemma FeedLine<M>(filter: Filter<M>, st: LineState<M>, line: seq<byte>)
    requires NEWLINE !in line
    ensures
      var (memory', written) := filter(st.memory, st.buf + line);
      Feed(filter, st, line + [NEWLINE]) == (LineState([], memory'), written + [NEWLINE])
  {
    FeedPartial(filter, st, line);
    FeedAppend(filter, st, line, [NEWLINE]);
    FeedNewline(filter, st.(buf := st.buf + line), []);
    var (_, written) := filter(st.memory, st.buf + line);
    assert [NEWLINE] + [] == [NEWLINE] && written + [NEWLINE] + [] == written + [NEWLINE];
    assert [] + (written + [NEWLINE]) == written + [NEWLINE];
  }

  lemma FeedNewline<M>(filter: Filter<M>, st: LineState<M>, rest: seq<byte>)
    ensures
      var (memory', line) := filter(st.memory, st.buf);
      var (st', out) := Feed(filter, LineState([], memory'), rest);
      Feed(filter, st, [NEWLINE] + rest) == (st', line + [NEWLINE] + out)
  {
    assert ([NEWLINE] + rest)[1..] == rest;
  }

  /** Feeding on: the rest of a line completes it, a fragment without newline is kept. */
  lemma FeedOn<M>(filter: Filter<M>, start: LineState<M>, done: seq<byte>, more: seq<byte>)
    requires NEWLINE !in more
    ensures
      var (st, out) := Feed(filter, start, done);
      var (memory', line) := filter(st.memory, st.buf + more);
      && Feed(filter, start, done + more) == (st.(buf := st.buf + more), out)
      && Feed(filter, start, done + (more + [NEWLINE])) == (LineState([], memory'), out + (line + [NEWLINE]))
  {
    var (st, out) := Feed(filter, start, done);
    assert out + [] == out;
    FeedPartial(filter, st, more);
    FeedLine(filter, st, more);
    FeedAppend(filter, start, done, more);
    FeedAppend(filter, start, done, more + [NEWLINE]);
  }

  /** The first line of a text is filtered first. */
  lemma FilteredSplit<M>(filter: Filter<M>, memory: M, line: seq<byte>, rest: seq<byte>)
    requires NEWLINE !in line
    ensures
      var (memory', written) := filter(memory, line);
      Joined(FilteredLines(filter, memory, Split(line + [NEWLINE] + rest)))
      == written + [NEWLINE] + Joined(FilteredLines(filter, memory', Split(rest)))
  {
    SplitLine(line, rest);
    var lines := Split(line + [NEWLINE] + rest);
    assert lines[0] == line && lines[1..] == Split(rest);
    var (memory', written) := filter(memory, line);
    var tail := FilteredLines(filter, memory', Split(rest));
    assert FilteredLines(filter, memory, lines) == [written] + tail;
    assert ([written] + tail)[1..] == tail;
  }

  /** What feeding some bytes and then flushing writes. */
  function Flushed<M>(filter: Filter<M>, st: LineState<M>, p: seq<byte>): seq<byte> {
    var (st', out) := Feed(filter, st, p);
    out + Rest(filter, st')
  }

  lemma FlushedNewline<M>(filter: Filter<M>, st: LineState<M>, rest: seq<byte>)
    ensures
      var (memory', line) := filter(st.memory, st.buf);
      Flushed(filter, st, [NEWLINE] + rest) == line + [NEWLINE] + Flushed(filter, LineState([], memory'), rest)
  {
    FeedNewline(filter, st, rest);
    var (memory', line) := filter(st.memory, st.buf);
    var (st', out) := Feed(filter, LineState([], memory'), rest);
    assert line + [NEWLINE] + out + Rest(filter, st') == line + [NEWLINE] + (out + Rest(filter, st'));
  }

  lemma FlushedNothing<M(!new)>(filter: Filter<M>, st: LineState<M>)
    requires Quiet(filter) && NEWLINE !in st.buf
    ensures Flushed(filter, st, []) == Joined(FilteredLines(filter, st.memory, Split(st.buf)))
  {
    SplitLine(st.buf, []);
    var written := filter(st.memory, st.buf).1;
    assert FilteredLines(filter, st.memory, [st.buf]) == [written];
    assert Rest(filter, st) == written;
    assert [] + written == written;
  }

  /** Byte-by-byte feeding and a flush write the filtered lines of the whole input. */
  lemma {:induction false} FeedIsLineByLine<M(!new)>(filter: Filter<M>, st: LineState<M>, p: seq<byte>)
    requires Quiet(filter) && NEWLINE !in st.buf
    ensures Flushed(filter, st, p) == Joined(FilteredLines(filter, st.memory, Split(st.buf + p)))
    decreases |p|
  {
    if p == [] {
      FlushedNothing(filter, st);
      assert st.buf + p == st.buf;
    } else if p[0] != NEWLINE {
      assert st.buf + [p[0]] + p[1..] == st.buf + p;
      FeedIsLineByLine(filter, st.(buf := st.buf + [p[0]]), p[1..]);
    } else {
      var next := LineState([], filter(st.memory, st.buf).0);
      assert next.buf + p[1..] == p[1..];
      assert p == [NEWLINE] + p[1..];
      Assoc(st.buf, [NEWLINE], p[1..]);
      FeedIsLineByLine(filter, next, p[1..]);
      NewlineIsLineByLine(filter, st, p[1..]);
    }
  }

  lemma NewlineIsLineByLine<M>(filter: Filter<M>, st: LineState<M>, rest: seq<byte>)
    requires NEWLINE !in st.buf
    requires
      var memory' := filter(st.memory, st.buf).0;
      Flushed(filter, LineState([], memory'), rest) == Joined(FilteredLines(filter, memory', Split(rest)))
    ensures
      Flushed(filter, st, [NEWLINE] + rest)
      == Joined(FilteredLines(filter, st.memory, Split(st.buf + [NEWLINE] + rest)))
  {
    FlushedNewline(filter, st, rest);
    FilteredSplit(filter, st.memory, st.buf, rest);
  }

  /** What feeding writes is a prefix of what feeding on and a flush write. */
  lemma FedIsPrefix<M>(filter: Filter<M>, st: LineState<M>, p: seq<byte>, q: seq<byte>)
    ensures Feed(filter, st, p).1 <= Flushed(filter, st, p + q)
  {
    FeedAppend(filter, st, p, q);
  }

  function FeedAll<M>(filter: Filter<M>, st: LineState<M>, chunks: seq<seq<byte>>): (LineState<M>, seq<byte>)
    decreases |chunks|
  {
    if chunks == [] then (st, [])
    else
      var (st1, out1) := Feed(filter, st, chunks[0]);
      var (st2, out2) := FeedAll(filter, st1, chunks[1..]);
      (st2, out1 + out2)
  }

  lemma {:induction false} FeedAllIsFeed<M>(filter: Filter<M>, st: LineState<M>, chunks: seq<seq<byte>>)
    ensures FeedAll(filter, st, chunks) == Feed(filter, st, Concat(chunks))
    decreases |chunks|
  {
    if chunks != [] {
      FeedAllIsFeed(filter, Feed(filter, st, chunks[0]).0, chunks[1..]);
      FeedAppend(filter, st, chunks[0], Concat(chunks[1..]));
    }
  }

  /** Feeding any chunks and then flushing writes the filtered lines of the whole input. */
  lemma ChunksAreLineByLine<M(!new)>(filter: Filter<M>, memory: M, chunks: seq<seq<byte>>)
    requires Quiet(filter)
    ensures
      var (st, out) := FeedAll(filter, LineState([], memory), chunks);
      out + Rest(filter, st) == Joined(FilteredLines(filter, memory, Split(Concat(chunks))))
  {
    FeedAllIsFeed(filter, LineState([], memory), chunks);
    FeedIsLineByLine(filter, LineState([], memory), Concat(chunks));
    assert [] + Concat(chunks) == Concat(chunks);
  }
}
