/** Strings as Go handles them: white space, searching, and decimal numbers. */
module Text {

  datatype Option<+T> = None | Some(value: T)

  /** One byte of a Go byte slice. */
  newtype byte = b: int | 0 <= b < 256

  const NEWLINE: byte := 10

  /** The characters Go's unicode.IsSpace accepts. */
  predicate IsSpace(c: char) {
    || '\t' <= c <= '\r' || c == ' ' || c == '\U{85}' || c == '\U{A0}' || c == '\U{1680}'
    || '\U{2000}' <= c <= '\U{200A}' || c == '\U{2028}' || c == '\U{2029}' || c == '\U{202F}'
    || c == '\U{205F}' || c == '\U{3000}'
  }

  function TrimLeft(s: string): string {
    if s != [] && IsSpace(s[0]) then TrimLeft(s[1..]) else s
  }

  function TrimRight(s: string): string {
    if s != [] && IsSpace(s[|s| - 1]) then TrimRight(s[..|s| - 1]) else s
  }

  /** strings.TrimSpace */
  function Trim(s: string): string {
    TrimRight(TrimLeft(s))
  }

  lemma TrimNothing(s: string)
    requires s != "" && !IsSpace(s[0]) && !IsSpace(s[|s| - 1])
    ensures Trim(s) == s
  {
  }

  lemma {:induction false} TrimLeftEnd(s: string)
    ensures TrimLeft(s) == "" || (!IsSpace(TrimLeft(s)[0]) && TrimLeft(s)[|TrimLeft(s)| - 1] == s[|s| - 1])
  {
    if s != "" && IsSpace(s[0]) {
      TrimLeftEnd(s[1..]);
    }
  }

  lemma {:induction false} TrimRightEnd(s: string)
    ensures TrimRight(s) == "" || (!IsSpace(TrimRight(s)[|TrimRight(s)| - 1]) && TrimRight(s)[0] == s[0])
    ensures s != "" && !IsSpace(s[0]) ==> TrimRight(s) != ""
  {
    if s != "" && IsSpace(s[|s| - 1]) {
      TrimRightEnd(s[..|s| - 1]);
    }
  }

  /** Trimming leaves nothing to trim, and all of it only when all is white space. */
  lemma TrimEnds(s: string)
    ensures Trim(Trim(s)) == Trim(s)
    ensures s != "" && !IsSpace(s[0]) ==> Trim(s) != ""
  {
    TrimLeftEnd(s);
    TrimRightEnd(TrimLeft(s));
    if Trim(s) != "" {
      TrimNothing(Trim(s));
    }
  }

  predicate Blank(s: string) {
    Trim(s) == ""
  }

  predicate AllSpace(s: string) {
    forall i :: 0 <= i < |s| ==> IsSpace(s[i])
  }

  lemma {:induction false} TrimLeftCut(s: string) returns (k: nat)
    ensures k <= |s| && AllSpace(s[..k]) && TrimLeft(s) == s[k..]
  {
    k := 0;
    if s != "" && IsSpace(s[0]) {
      var j := TrimLeftCut(s[1..]);
      k := j + 1;
      SpaceInFront(s, k);
    } else {
      assert s[0..] == s;
    }
  }

  lemma SpaceInFront(s: string, k: nat)
    requires 0 < k <= |s| && IsSpace(s[0]) && AllSpace(s[1..][..k - 1])
    ensures AllSpace(s[..k]) && s[k..] == s[1..][k - 1..]
  {
    assert s[..k] == [s[0]] + s[1..][..k - 1];
  }

  lemma {:induction false} TrimRightCut(s: string) returns (k: nat)
    ensures k <= |s| && AllSpace(s[k..]) && TrimRight(s) == s[..k]
  {
    k := |s|;
    if s != "" && IsSpace(s[|s| - 1]) {
      k := TrimRightCut(s[..|s| - 1]);
      SpaceBehind(s, k);
    } else {
      assert s[..|s|] == s;
    }
  }

  lemma SpaceBehind(s: string, k: nat)
    requires k < |s| && IsSpace(s[|s| - 1]) && AllSpace(s[..|s| - 1][k..])
    ensures AllSpace(s[k..]) && s[..k] == s[..|s| - 1][..k]
  {
    assert s[k..] == s[..|s| - 1][k..] + [s[|s| - 1]];
  }

  /** t is s without some white space at both ends. */
  predicate CutsTo(s: string, j: int, k: int, t: string) {
    0 <= j <= k <= |s| && AllSpace(s[..j]) && AllSpace(s[k..]) && t == s[j..k]
  }

  /** Trimming cuts off white space at both ends, as much as there is. */
  lemma TrimCuts(s: string)
    ensures exists j, k :: CutsTo(s, j, k, Trim(s))
    ensures Trim(s) != "" ==> !IsSpace(Trim(s)[0]) && !IsSpace(Trim(s)[|Trim(s)| - 1])
  {
    var left := TrimLeft(s);
    var j := TrimLeftCut(s);
    var k := TrimRightCut(left);
    var e := j + k;
    BothCuts(s, left, j, k, e);
    assert CutsTo(s, j, e, Trim(s));
    TrimLeftEnd(s);
    TrimRightEnd(left);
  }

  lemma BothCuts(s: string, left: string, j: nat, k: nat, e: nat)
    requires e == j + k <= |s| && AllSpace(s[..j]) && left == s[j..] && AllSpace(left[k..])
    ensures CutsTo(s, j, e, left[..k])
  {
    SliceBehind(s, j, k);
  }

  lemma SliceBehind<T>(s: seq<T>, j: nat, k: nat)
    requires j + k <= |s|
    ensures s[j..][k..] == s[j + k..] && s[j..][..k] == s[j..j + k]
  {
  }

  /** Only white space is blank. */
  lemma BlankIff(s: string)
    ensures Blank(s) <==> AllSpace(s)
  {
    TrimCuts(s);
    var j, k :| CutsTo(s, j, k, Trim(s));
    if Blank(s) {
      assert forall i :: 0 <= i < |s| ==> if i < j then s[i] == s[..j][i] else s[i] == s[k..][i - k];
    } else {
      assert s[j] == Trim(s)[0];
    }
  }

  /** Position of the first x in s, or -1 (bytes.IndexByte, strings.IndexByte). */
  function IndexOf<T(==)>(s: seq<T>, x: T): (i: int)
    ensures -1 <= i < |s|
  {
    if s == [] then -1
    else if s[0] == x then 0
    else
      var rest := IndexOf(s[1..], x);
      if rest < 0 then -1 else rest + 1
  }

  /** What IndexOf finds. */
  lemma {:induction false} IndexOfFirst<T>(s: seq<T>, x: T)
    ensures
      var i := IndexOf(s, x);
      && (i < 0 <==> x !in s)
      && (i >= 0 ==> s[i] == x && x !in s[..i])
  {
    if s != [] && s[0] != x {
      IndexOfFirst(s[1..], x);
      var i := IndexOf(s, x);
      if i > 0 {
        assert s[..i] == [s[0]] + s[1..][..i - 1];
      }
    }
  }

  /** IndexOf finds the end of a prefix without x when x follows. */
  lemma {:induction false} IndexBehind<T>(prefix: seq<T>, x: T, rest: seq<T>)
    requires x !in prefix
    ensures IndexOf(prefix + [x] + rest, x) == |prefix|
  {
    if prefix != [] {
      assert (prefix + [x] + rest)[1..] == prefix[1..] + [x] + rest;
      IndexBehind(prefix[1..], x, rest);
    }
  }

  lemma SomeMember<T>(s: set<T>) returns (x: T)
    requires s != {}
    ensures x in s
  {
    x :| x in s;
  }

  lemma OneLess<K, V>(m: map<K, V>, key: K)
    requires key in m
    ensures |m - {key}| == |m| - 1
  {
    assert m.Keys == (m - {key}).Keys + {key};
  }

  lemma Assoc<T>(a: seq<T>, b: seq<T>, c: seq<T>)
    ensures a + (b + c) == a + b + c
  {
  }

  lemma SliceNext<T>(s: seq<T>, i: nat, j: nat)
    requires i <= j < |s|
    ensures s[i..j + 1] == s[i..j] + [s[j]]
  {
  }

  lemma FrontAndLast<T>(s: seq<T>, last: T)
    ensures (s + [last])[..|s + [last]| - 1] == s && (s + [last])[|s + [last]| - 1] == last
  {
  }

  lemma CutAt<T>(s: seq<T>, i: nat)
    requires i < |s|
    ensures s == s[..i] + [s[i]] + s[i + 1..]
  {
  }

  function Concat<T>(parts: seq<seq<T>>): seq<T> {
    if parts == [] then [] else parts[0] + Concat(parts[1..])
  }

  lemma {:induction false} ConcatAppend<T>(a: seq<seq<T>>, b: seq<seq<T>>)
    ensures Concat(a + b) == Concat(a) + Concat(b)
  {
    if a == [] {
      assert a + b == b;
    } else {
      assert (a + b)[0] == a[0] && (a + b)[1..] == a[1..] + b;
      ConcatAppend(a[1..], b);
    }
  }

  lemma ConcatSplit<T>(parts: seq<seq<T>>, i: nat)
    requires i <= |parts|
    ensures Concat(parts) == Concat(parts[..i]) + Concat(parts[i..])
  {
    TwoParts(parts, i);
    ConcatAppend(parts[..i], parts[i..]);
  }

  lemma TwoParts<T>(s: seq<T>, i: nat)
    requires i <= |s|
    ensures s[..i] + s[i..] == s
  {
  }

  lemma ConcatNext<T>(parts: seq<seq<T>>, i: nat)
    requires i < |parts|
    ensures Concat(parts[..i + 1]) == Concat(parts[..i]) + parts[i]
  {
    ConcatSplit(parts[..i + 1], i);
    assert parts[..i + 1][..i] == parts[..i] && parts[..i + 1][i..] == [parts[i]];
  }

  /** unicode.ToLower as far as the result is an ASCII letter; other characters stay what they are. */
  function Lower(c: char): char {
    if 'A' <= c <= 'Z' then (c as int + 32) as char
    else if c == '\U{130}' then 'i'
    else if c == '\U{212A}' then 'k'
    else c
  }

  /** strings.Join */
  function Join(parts: seq<string>, separator: string): string {
    if parts == [] then ""
    else if |parts| == 1 then parts[0]
    else Join(parts[..|parts| - 1], separator) + separator + parts[|parts| - 1]
  }

  // ----- decimal numbers -----

  predicate IsDigit(c: char) {
    '0' <= c <= '9'
  }

  predicate AllDigits(s: string) {
    forall i :: 0 <= i < |s| ==> IsDigit(s[i])
  }

  function Digit(d: nat): (c: char)
    requires d < 10
    ensures IsDigit(c)
  {
    '0' + d as char
  }

  /** strconv.Itoa on a non-negative number. */
  function Decimal(n: nat): (s: string)
    ensures |s| > 0 && AllDigits(s)
  {
    if n < 10 then [Digit(n)] else Decimal(n / 10) + [Digit(n % 10)]
  }

  function Itoa(n: int): string {
    if n < 0 then "-" + Decimal(-n) else Decimal(n)
  }

  function Value(s: string): nat
    requires AllDigits(s)
  {
    if s == "" then 0 else 10 * Value(s[..|s| - 1]) + (s[|s| - 1] as int - '0' as int)
  }

  /** Reading a printed number gives the number back, so printing is injective. */
  lemma {:induction false} ValueOfDecimal(n: nat)
    ensures Value(Decimal(n)) == n
  {
    if n >= 10 {
      ValueOfDecimal(n / 10);
      assert Decimal(n)[..|Decimal(n)| - 1] == Decimal(n / 10);
    }
  }

  const MAX_INT64: int := 0x7FFF_FFFF_FFFF_FFFF

  /** strconv.ParseInt(s, 10, 64): an optional sign, then digits, within range. */
  function ParseInt64(s: string): Option<int> {
    var negative := "-" <= s;
    var digits := if negative || "+" <= s then s[1..] else s;
    if digits == "" || !AllDigits(digits) then None
    else
      var magnitude: int := Value(digits);
      var v := if negative then -magnitude else magnitude;
      if -MAX_INT64 - 1 <= v <= MAX_INT64 then Some(v) else None
  }

  lemma ParseDecimal(n: nat)
    ensures ParseInt64(Decimal(n)) == if n <= MAX_INT64 then Some(n) else None
  {
    var s := Decimal(n);
    assert IsDigit(s[0]);
    ValueOfDecimal(n);
  }

  /** Number of bytes of the UTF-8 form of a string. */
  function Utf8Length(s: string): nat {
    if s == "" then 0
    else
      (if s[0] < '\U{80}' then 1 else if s[0] < '\U{800}' then 2 else if s[0] < '\U{10000}' then 3 else 4)
      + Utf8Length(s[1..])
  }
}
