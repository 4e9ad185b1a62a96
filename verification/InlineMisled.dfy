/**
 * When the search for placeholders is misled, seen on the text in front of the rules: only a rewritten
 * link brings later spans in front of earlier ones, and no rule makes neighbours of what was apart.
 */
module InlineMisled {
  import opened Text
  import opened InlineRules
  import opened InlineOrder
  import opened InlineRestore

  // ----- what the search is misled about, piece by piece -----

  /** Nothing that is misleading goes across such an atom. */
  predicate Breaks(x: Atom) {
    x.Ch? && !IsDigit(x.c)
  }

  predicate Border(a: seq<Atom>, b: seq<Atom>) {
    b == [] || Breaks(b[0]) || (a != [] && Breaks(a[|a| - 1]))
  }

  lemma {:induction false} ReachesAppend(a: seq<Atom>, b: seq<Atom>, digits: string, i: nat)
    requires AllDigits(digits) && Border(a, b)
    ensures Reaches(a + b, digits, i) == Reaches(a, digits, i)
    decreases |digits|
  {
    if a == [] {
      assert a + b == b;
      assert digits != "" ==> IsDigit(digits[0]);
    } else if digits != "" && ATOMS.read(a[0]) == digits[0] {
      assert IsDigit(digits[0]) && (a + b)[1..] == a[1..] + b;
      ReachesAppend(a[1..], b, digits[1..], i);
    }
  }

  /** A text behind another one adds what it is misled about, unless span i came before. */
  lemma {:induction false} MisledAppend(a: seq<Atom>, b: seq<Atom>, i: nat)
    requires Border(a, b)
    ensures Misled(a + b, i) <==> Misled(a, i) || (i !in Numbers(a) && Misled(b, i))
  {
    if a == [] {
      assert a + b == b;
    } else {
      assert (a + b)[0] == a[0] && (a + b)[1..] == a[1..] + b;
      if a[1..] == [] {
        assert a[1..] + b == b;
      } else {
        MisledAppend(a[1..], b, i);
      }
      if a[0].Span? {
        ReachesAppend(a[1..], b, Decimal(i), i);
      }
    }
  }

  lemma {:induction false} MisledBehind(front: string, a: seq<Atom>, i: nat)
    ensures Misled(Written(ATOMS, front) + a, i) == Misled(a, i)
  {
    if front == "" {
      assert Written(ATOMS, front) + a == a;
    } else {
      assert (Written(ATOMS, front) + a)[1..] == Written(ATOMS, front[1..]) + a;
      MisledBehind(front[1..], a, i);
    }
  }

  lemma MisledWrapped(open: string, body: seq<Atom>, close: string, i: nat)
    requires close != "" && !IsDigit(close[0])
    ensures Misled(Wrapped(ATOMS, open, body, close), i) == Misled(body, i)
  {
    var end := Written(ATOMS, close);
    assert end + [] == end;
    MisledBehind(close, [], i);
    MisledAppend(body, end, i);
    MisledBehind(open, body + end, i);
    Assoc(Written(ATOMS, open), body, end);
  }

  lemma {:induction false} WrittenLast(s: string)
    requires s != ""
    ensures Written(ATOMS, s) != [] && Written(ATOMS, s)[0] == Ch(s[0])
    ensures Written(ATOMS, s)[|Written(ATOMS, s)| - 1] == Ch(s[|s| - 1])
  {
    if |s| > 1 {
      WrittenLast(s[1..]);
    }
  }

  // ----- bold and emphasis -----

  /** A rule takes a text in from one break to another and puts one in from break to break. */
  ghost predicate Breaking(find: Finder<Atom>) {
    forall a: seq<Atom> :: a != [] && find(a).Some? ==> BreakingAt(a, find(a).value)
  }

  ghost predicate BreakingAt(a: seq<Atom>, hit: Hit<Atom>) {
    var r := hit.replacement;
    && a != [] && |hit.rest| < |a| && a[|a| - |hit.rest|..] == hit.rest
    && Breaks(a[0]) && Breaks(a[|a| - |hit.rest| - 1])
    && r != [] && Breaks(r[0]) && Breaks(r[|r| - 1])
  }

  lemma {:induction false} ReachesKept(find: Finder<Atom>, a: seq<Atom>, digits: string, i: nat)
    requires Breaking(find) && AllDigits(digits)
    ensures Reaches(ReplaceAll(find, a), digits, i) == Reaches(a, digits, i)
    decreases |digits|
  {
    if a != [] {
      match find(a) {
        case Some(hit) =>
          assert BreakingAt(a, hit);
          assert ReplaceAll(find, a)[0] == hit.replacement[0];
          assert digits != "" ==> IsDigit(digits[0]);
        case None =>
          if digits != "" {
            assert ReplaceAll(find, a)[1..] == ReplaceAll(find, a[1..]);
            ReachesKept(find, a[1..], digits[1..], i);
          }
      }
    }
  }

  /** What is put in has the spans of what was taken, and misleads alike. */
  ghost predicate SameSpans(find: Finder<Atom>, i: nat) {
    forall a: seq<Atom> :: a != [] && find(a).Some? ==> SameAt(a, find(a).value, i)
  }

  ghost predicate SameAt(a: seq<Atom>, hit: Hit<Atom>, i: nat) {
    && |hit.rest| < |a|
    && var taken := a[..|a| - |hit.rest|];
       Numbers(taken) == Numbers(hit.replacement) && Misled(taken, i) == Misled(hit.replacement, i)
  }

  lemma {:induction false} MisledKept(find: Finder<Atom>, a: seq<Atom>, i: nat)
    requires Breaking(find) && SameSpans(find, i)
    ensures Misled(ReplaceAll(find, a), i) == Misled(a, i)
    decreases |a|
  {
    if a != [] {
      match find(a) {
        case Some(hit) =>
          assert BreakingAt(a, hit) && SameAt(a, hit, i);
          var taken := a[..|a| - |hit.rest|];
          assert a == taken + hit.rest;
          MisledKept(find, hit.rest, i);
          MisledAppend(taken, hit.rest, i);
          MisledAppend(hit.replacement, ReplaceAll(find, hit.rest), i);
        case None =>
          var kept := ReplaceAll(find, a[1..]);
          assert ([a[0]] + kept)[0] == a[0] && ([a[0]] + kept)[1..] == kept;
          ReachesKept(find, a[1..], Decimal(i), i);
          MisledKept(find, a[1..], i);
      }
    }
  }

  lemma {:induction false} BehindShape(a: seq<Atom>, literal: string)
    requires NUL !in literal
    ensures
      var rest := Behind(ATOMS, a, literal);
      rest.Some? ==> a == Written(ATOMS, literal) + rest.value
    decreases |literal|
  {
    if literal != "" && a != [] && ATOMS.read(a[0]) == literal[0] {
      BehindShape(a[1..], literal[1..]);
      assert a == [a[0]] + a[1..];
    }
  }

  lemma DelimitedShape(a: seq<Atom>, open: string, stops: string, close: string)
    requires NUL !in open && NUL !in close
    ensures
      var cut := Delimited(ATOMS, a, open, stops, close);
      cut.Some? ==> a == Wrapped(ATOMS, open, cut.value.body, close) + cut.value.rest
  {
    BehindShape(a, open);
    var t := Behind(ATOMS, a, open);
    if t.Some? {
      var n := Run(ATOMS, t.value, stops);
      BehindShape(t.value[n..], close);
      var rest := Behind(ATOMS, t.value[n..], close);
      if rest.Some? {
        Pieces(Written(ATOMS, open), t.value, n, Written(ATOMS, close), rest.value);
      }
    }
  }

  lemma Pieces<T>(front: seq<T>, s: seq<T>, n: nat, middle: seq<T>, rest: seq<T>)
    requires n <= |s| && s[n..] == middle + rest
    ensures front + s == front + s[..n] + middle + rest
  {
    assert s == s[..n] + (middle + rest);
  }

  predicate Tags(open: string, close: string) {
    && open != "" && close != "" && !IsDigit(open[0]) && !IsDigit(close[0])
    && !IsDigit(open[|open| - 1]) && !IsDigit(close[|close| - 1])
  }

  lemma WrappedBreaks(open: string, body: seq<Atom>, close: string)
    requires Tags(open, close)
    ensures
      var w := Wrapped(ATOMS, open, body, close);
      w != [] && Breaks(w[0]) && Breaks(w[|w| - 1])
  {
    WrittenLast(open);
    WrittenLast(close);
  }

  /** One pair of delimiters in place of another. */
  lemma Rewrapped(
    a: seq<Atom>, open: string, body: seq<Atom>, close: string, rest: seq<Atom>, p: string, q: string, i: nat)
    requires a == Wrapped(ATOMS, open, body, close) + rest && Tags(open, close) && Tags(p, q)
    ensures
      var hit := Hit(Wrapped(ATOMS, p, body, q), rest);
      BreakingAt(a, hit) && SameAt(a, hit, i)
  {
    var w := Wrapped(ATOMS, open, body, close);
    assert a[..|a| - |rest|] == w;
    WrappedBreaks(open, body, close);
    WrappedBreaks(p, body, q);
    WrappedNumbers(open, body, close);
    WrappedNumbers(p, body, q);
    MisledWrapped(open, body, close, i);
    MisledWrapped(p, body, q, i);
  }

  lemma BoldSame(a: seq<Atom>, i: nat)
    requires BoldAt(ATOMS, a).Some?
    ensures BreakingAt(a, BoldAt(ATOMS, a).value) && SameAt(a, BoldAt(ATOMS, a).value, i)
  {
    DelimitedShape(a, "**", "*", "**");
    var cut := Delimited(ATOMS, a, "**", "*", "**").value;
    Rewrapped(a, "**", cut.body, "**", cut.rest, "<strong>", "</strong>", i);
  }

  lemma EmphasisSame(a: seq<Atom>, i: nat)
    requires EmphasisAt(ATOMS, a).Some?
    ensures BreakingAt(a, EmphasisAt(ATOMS, a).value) && SameAt(a, EmphasisAt(ATOMS, a).value, i)
  {
    DelimitedShape(a, "*", "*", "*");
    var cut := Delimited(ATOMS, a, "*", "*", "*").value;
    Rewrapped(a, "*", cut.body, "*", cut.rest, "<em>", "</em>", i);
  }

  /** Bold and emphasis change nothing about which spans the search is misled about. */
  lemma PlainMisled(rule: Rule, a: seq<Atom>, i: nat)
    requires !rule.Link?
    ensures Misled(Replaced(rule, ATOMS, a), i) == Misled(a, i)
  {
    var find := (t: seq<Atom>) => HitAt(rule, ATOMS, t);
    forall b: seq<Atom> | b != [] && find(b).Some?
      ensures BreakingAt(b, find(b).value) && SameAt(b, find(b).value, i)
    {
      if rule.Bold? { BoldSame(b, i); } else { EmphasisSame(b, i); }
    }
    MisledKept(find, a, i);
  }

  // ----- links -----

  /** Just the number i on its own between two spans. */
  predicate Marked(a: seq<Atom>, i: nat) {
    a != [] && ((a[0].Span? && Reaches(a[1..], Decimal(i), 0)) || Marked(a[1..], i))
  }

  /** A link is rewritten here, with span i in its text and just the number i between two spans of its target. */
  predicate CrossesAbout(a: seq<Atom>, i: nat) {
    match Delimited(ATOMS, a, "[", "[]", "]")
    case None => false
    case Some(caption) =>
      match Delimited(ATOMS, caption.rest, "(", "()" + SPACE, ")")
      case None => false
      case Some(target) =>
        SafeLinkTarget(ATOMS, target.body) && i in Numbers(caption.body) && Marked(target.body, i)
  }

  /** Some rewritten link is like that. */
  predicate TangledAbout(a: seq<Atom>, i: nat) {
    Crossed((t: seq<Atom>) => HitAt(Link, ATOMS, t), (t: seq<Atom>) => CrossesAbout(t, i), a)
  }

  /** The numbers from k on, without a gap. */
  ghost predicate From(s: seq<nat>, k: nat) {
    forall j :: 0 <= j < |s| ==> s[j] == k + j
  }

  lemma FromSplit(x: seq<nat>, y: seq<nat>, k: nat)
    requires From(x + y, k)
    ensures From(x, k) && From(y, k + |x|)
  {
    forall j | 0 <= j < |x| ensures x[j] == k + j {
      assert (x + y)[j] == x[j];
    }
    forall j | 0 <= j < |y| ensures y[j] == k + |x| + j {
      assert (x + y)[|x| + j] == y[j];
    }
  }

  lemma FromHas(s: seq<nat>, k: nat, i: nat)
    requires From(s, k)
    ensures i in s <==> k <= i < k + |s|
  {
    if k <= i < k + |s| {
      assert s[i - k] == i;
    }
  }

  /** Spans in order mislead nobody, whatever numbers stand between them. */
  lemma {:induction false} InOrderIsClear(a: seq<Atom>, k: nat, i: nat)
    requires From(Numbers(a), k) && k <= i
    ensures !Misled(a, i)
  {
    if a != [] && a[0] != Span(i) {
      if a[0].Span? {
        FromNext(a, k);
        InOrderIsClear(a[1..], k + 1, i);
      } else {
        assert Numbers(a) == Numbers(a[1..]);
        InOrderIsClear(a[1..], k, i);
      }
    }
  }

  lemma FromNext(a: seq<Atom>, k: nat)
    requires a != [] && a[0].Span? && From(Numbers(a), k)
    ensures a[0].k == k && From(Numbers(a[1..]), k + 1) && |Numbers(a)| == |Numbers(a[1..])| + 1
  {
    assert Numbers(a) == [a[0].k] + Numbers(a[1..]);
    assert Numbers(a)[0] == k;
    FromSplit([a[0].k], Numbers(a[1..]), k);
  }

  lemma {:induction false} ReachesAny(a: seq<Atom>, digits: string, i: nat)
    requires forall k :: k in Numbers(a) ==> k > i
    ensures Reaches(a, digits, i) == Reaches(a, digits, 0)
    decreases |digits|
  {
    if a != [] {
      assert a[0].Span? ==> Numbers(a)[0] == a[0].k && a[0].k in Numbers(a);
      assert forall k :: k in Numbers(a[1..]) ==> k in Numbers(a);
      if digits != "" && ATOMS.read(a[0]) == digits[0] {
        ReachesAny(a[1..], digits[1..], i);
      }
    }
  }

  /** Among later spans only, every such number misleads. */
  lemma {:induction false} LaterMisled(a: seq<Atom>, i: nat)
    requires forall k :: k in Numbers(a) ==> k > i
    ensures Misled(a, i) == Marked(a, i)
  {
    if a != [] {
      assert a[0].Span? ==> Numbers(a)[0] == a[0].k && a[0].k in Numbers(a);
      assert forall k :: k in Numbers(a[1..]) ==> k in Numbers(a);
      ReachesAny(a[1..], Decimal(i), i);
      LaterMisled(a[1..], i);
    }
  }

  /** Literals between and around two texts, with no digit at any of their ends. */
  predicate Frame(p: string, q: string, r: string) {
    && p != "" && q != "" && r != "" && !IsDigit(p[0]) && !IsDigit(q[0]) && !IsDigit(q[|q| - 1])
    && !IsDigit(r[0]) && !IsDigit(r[|r| - 1])
  }

  lemma FramedMisled(p: string, x: seq<Atom>, q: string, y: seq<Atom>, r: string, i: nat)
    requires Frame(p, q, r)
    ensures Misled(Framed(ATOMS, p, x, q, y, r), i) <==> Misled(x, i) || (i !in Numbers(x) && Misled(y, i))
  {
    var front, end := Wrapped(ATOMS, p, x, q), Written(ATOMS, r);
    WrittenLast(q);
    WrittenLast(r);
    MisledWrapped(p, x, q, i);
    WrappedNumbers(p, x, q);
    MisledAppend(front, y, i);
    assert end + [] == end;
    MisledBehind(r, [], i);
    MisledAppend(front + y, end, i);
  }

  lemma FramedEnds(p: string, x: seq<Atom>, q: string, y: seq<Atom>, r: string)
    requires Frame(p, q, r)
    ensures
      var f := Framed(ATOMS, p, x, q, y, r);
      f != [] && Breaks(f[0]) && Breaks(f[|f| - 1])
  {
    WrittenLast(p);
    WrittenLast(r);
  }

  /** A text with its spans in order, which start behind span i or not. */
  lemma OrderedMisled(a: seq<Atom>, k: nat, i: nat)
    requires From(Numbers(a), k)
    ensures Misled(a, i) <==> i < k && Marked(a, i)
  {
    if i < k {
      LaterMisled(a, i);
    } else {
      InOrderIsClear(a, k, i);
    }
  }

  /** Two texts with their spans in order, framed the other way round. */
  lemma SwappedMisled(p: string, target: seq<Atom>, q: string, caption: seq<Atom>, r: string, k: nat, i: nat)
    requires Frame(p, q, r) && From(Numbers(caption) + Numbers(target), k) && k <= i
    ensures Misled(Framed(ATOMS, p, target, q, caption, r), i) <==> i in Numbers(caption) && Marked(target, i)
  {
    FromSplit(Numbers(caption), Numbers(target), k);
    FramedMisled(p, target, q, caption, r, i);
    OrderedMisled(caption, k, i);
    OrderedMisled(target, k + |Numbers(caption)|, i);
    FromHas(Numbers(caption), k, i);
  }

  /** What a link is made into: from break to break, with these spans, and misleading just when swapped. */
  ghost predicate LinkFacts(
    linked: seq<Atom>, caption: seq<Atom>, target: seq<Atom>, end: nat, i: nat, swapped: bool)
  {
    && linked != [] && Breaks(linked[0]) && Breaks(linked[|linked| - 1])
    && (i in Numbers(linked) <==> i < end)
    && (Misled(linked, i) <==> swapped && i in Numbers(caption) && Marked(target, i))
  }

  lemma SwappedFacts(p: string, target: seq<Atom>, q: string, caption: seq<Atom>, r: string, k: nat, i: nat)
    requires Frame(p, q, r) && From(Numbers(caption) + Numbers(target), k) && k <= i
    ensures
      LinkFacts(
        Framed(ATOMS, p, target, q, caption, r), caption, target, k + |Numbers(caption) + Numbers(target)|, i, true)
  {
    FromHas(Numbers(caption) + Numbers(target), k, i);
    SwappedMisled(p, target, q, caption, r, k, i);
    FramedEnds(p, target, q, caption, r);
    FramedNumbers(p, target, q, caption, r);
  }

  lemma InPlaceFacts(p: string, caption: seq<Atom>, q: string, target: seq<Atom>, r: string, k: nat, i: nat)
    requires Frame(p, q, r) && From(Numbers(caption) + Numbers(target), k) && k <= i
    ensures
      LinkFacts(
        Framed(ATOMS, p, caption, q, target, r), caption, target, k + |Numbers(caption) + Numbers(target)|, i, false)
  {
    FromHas(Numbers(caption) + Numbers(target), k, i);
    FramedEnds(p, caption, q, target, r);
    FramedNumbers(p, caption, q, target, r);
    InOrderIsClear(Framed(ATOMS, p, caption, q, target, r), k, i);
  }

  lemma LinkedMisled(caption: seq<Atom>, target: seq<Atom>, k: nat, i: nat)
    requires From(Numbers(caption) + Numbers(target), k) && k <= i
    ensures
      LinkFacts(
        Linked(ATOMS, caption, target), caption, target, k + |Numbers(caption) + Numbers(target)|, i,
        SafeLinkTarget(ATOMS, target))
  {
    SwappedFacts("<a href=\"", target, "\">", caption, "</a>", k, i);
    InPlaceFacts("[", caption, "](", target, ")", k, i);
  }

  /** The first number behind a hit, when the spans are in order from k on. */
  function End(a: seq<Atom>, hit: Hit<Atom>, k: nat): int {
    k + |Numbers(a)| - |Numbers(hit.rest)|
  }

  /** One link among spans in order: where it stands, what it takes, what it is made into. */
  ghost predicate HitFacts(a: seq<Atom>, hit: Hit<Atom>, crosses: bool, end: int, i: nat) {
    var linked := hit.replacement;
    && end >= 0 && From(Numbers(hit.rest), end) && |hit.rest| < |a|
    && linked != [] && Breaks(a[0]) && Breaks(linked[0]) && Breaks(linked[|linked| - 1])
    && (i in Numbers(linked) <==> i < end) && (Misled(linked, i) <==> crosses) && (crosses ==> i < end)
  }

  /** The two texts of a link. */
  lemma LinkShape(a: seq<Atom>, i: nat) returns (caption: seq<Atom>, target: seq<Atom>)
    requires LinkAt(ATOMS, a).Some?
    ensures a != [] && Breaks(a[0])
    ensures LinkAt(ATOMS, a).value.replacement == Linked(ATOMS, caption, target)
    ensures Numbers(a) == Numbers(caption) + (Numbers(target) + Numbers(LinkAt(ATOMS, a).value.rest))
    ensures CrossesAbout(a, i) <==> SafeLinkTarget(ATOMS, target) && i in Numbers(caption) && Marked(target, i)
  {
    DelimitedNumbers(a, "[", "[]", "]");
    BehindOpens(a);
    var cut := Delimited(ATOMS, a, "[", "[]", "]").value;
    DelimitedNumbers(cut.rest, "(", "()" + SPACE, ")");
    caption, target := cut.body, Delimited(ATOMS, cut.rest, "(", "()" + SPACE, ")").value.body;
  }

  lemma LinkHit(a: seq<Atom>, k: nat, i: nat)
    requires LinkAt(ATOMS, a).Some? && From(Numbers(a), k) && k <= i
    ensures HitFacts(a, LinkAt(ATOMS, a).value, CrossesAbout(a, i), End(a, LinkAt(ATOMS, a).value, k), i)
  {
    var caption, target := LinkShape(a, i);
    var hit := LinkAt(ATOMS, a).value;
    var x, y, rest := Numbers(caption), Numbers(target), Numbers(hit.rest);
    Assoc(x, y, rest);
    FromSplit(x + y, rest, k);
    FromSplit(x, y, k);
    FromHas(x, k, i);
    LinkedMisled(caption, target, k, i);
    HitParts(
      a, hit, CrossesAbout(a, i), caption, target, SafeLinkTarget(ATOMS, target), End(a, hit, k), i);
  }

  lemma HitParts(
    a: seq<Atom>, hit: Hit<Atom>, crosses: bool, caption: seq<Atom>, target: seq<Atom>, safe: bool, end: nat, i: nat)
    requires LinkFacts(hit.replacement, caption, target, end, i, safe) && a != [] && Breaks(a[0])
    requires From(Numbers(hit.rest), end) && |hit.rest| < |a|
    requires (crosses <==> safe && i in Numbers(caption) && Marked(target, i)) && (i in Numbers(caption) ==> i < end)
    ensures HitFacts(a, hit, crosses, end, i)
  {
  }

  lemma BehindOpens(a: seq<Atom>)
    requires Behind(ATOMS, a, "[").Some?
    ensures a != [] && Breaks(a[0])
  {
    assert "["[1..] == "";
  }

  /** Spans only go: a hit leaves none that was not there. */
  ghost predicate OnlyGo(find: Finder<Atom>, crosses: seq<Atom> -> bool, i: nat) {
    forall a: seq<Atom> :: a != [] && find(a).Some? ==>
      (crosses(a) ==> i in Numbers(a)) && (i in Numbers(find(a).value.rest) ==> i in Numbers(a))
  }

  lemma {:induction false} NotAbout(find: Finder<Atom>, crosses: seq<Atom> -> bool, a: seq<Atom>, i: nat)
    requires OnlyGo(find, crosses, i) && i !in Numbers(a)
    ensures !Crossed(find, crosses, a)
    decreases |a|
  {
    if a != [] {
      match find(a) {
        case Some(hit) => if |hit.rest| < |a| { NotAbout(find, crosses, hit.rest, i); }
        case None => NotAbout(find, crosses, a[1..], i);
      }
    }
  }

  ghost predicate LinkLike(find: Finder<Atom>, crosses: seq<Atom> -> bool, i: nat) {
    && OnlyGo(find, crosses, i)
    && forall a: seq<Atom>, k: nat ::
         a != [] && find(a).Some? && From(Numbers(a), k) && k <= i ==>
           HitFacts(a, find(a).value, crosses(a), End(a, find(a).value, k), i)
  }

  /** Along a text whose spans are in order, with span i among them. */
  lemma {:induction false} LinkMisled(
    find: Finder<Atom>, crosses: seq<Atom> -> bool, a: seq<Atom>, k: nat, i: nat)
    requires LinkLike(find, crosses, i) && From(Numbers(a), k) && k <= i && i in Numbers(a)
    ensures Misled(ReplaceAll(find, a), i) <==> Crossed(find, crosses, a)
    decreases |a|
  {
    match find(a) {
      case Some(hit) =>
        var end := End(a, hit, k);
        assert HitFacts(a, hit, crosses(a), end, i);
        FromHas(Numbers(a), k, i);
        FromHas(Numbers(hit.rest), end, i);
        MisledAppend(hit.replacement, ReplaceAll(find, hit.rest), i);
        if i < end {
          NotAbout(find, crosses, hit.rest, i);
        } else {
          LinkMisled(find, crosses, hit.rest, end, i);
        }
      case None =>
        var kept := ReplaceAll(find, a[1..]);
        assert ([a[0]] + kept)[0] == a[0] && ([a[0]] + kept)[1..] == kept;
        if a[0].Ch? {
          assert Numbers(a) == Numbers(a[1..]);
          LinkMisled(find, crosses, a[1..], k, i);
        } else {
          SpanKept(find, crosses, a, k, i);
        }
    }
  }

  lemma {:induction false} SpanKept(
    find: Finder<Atom>, crosses: seq<Atom> -> bool, a: seq<Atom>, k: nat, i: nat)
    requires LinkLike(find, crosses, i) && From(Numbers(a), k) && k <= i && i in Numbers(a)
    requires a != [] && a[0].Span? && find(a) == None
    ensures Misled(ReplaceAll(find, a), i) <==> Crossed(find, crosses, a)
    decreases |a|, 0
  {
    var kept := ReplaceAll(find, a[1..]);
    assert ([a[0]] + kept)[0] == a[0] && ([a[0]] + kept)[1..] == kept;
    FromNext(a, k);
    FromHas(Numbers(a), k, i);
    FromHas(Numbers(a[1..]), k + 1, i);
    if a[0].k == i {
      NotAbout(find, crosses, a[1..], i);
    } else {
      LinkMisled(find, crosses, a[1..], k + 1, i);
    }
  }

  lemma LinkOnlyGoes(a: seq<Atom>, i: nat)
    requires LinkAt(ATOMS, a).Some?
    ensures CrossesAbout(a, i) ==> i in Numbers(a)
    ensures i in Numbers(LinkAt(ATOMS, a).value.rest) ==> i in Numbers(a)
  {
    var _, _ := LinkShape(a, i);
  }

  /**
   * The search is misled about span i if and only if some rewritten link has the span in its text, and in
   * its target just the number i between two other spans.
   */
  lemma MisledIff(a: seq<Atom>, n: nat, i: nat)
    requires Numbers(a) == Count(0, n) && i < n
    ensures Misled(Styled(ATOMS, a), i) <==> TangledAbout(a, i)
  {
    var linked := Replaced(Link, ATOMS, a);
    LinksMisled(a, n, i);
    PlainMisled(Bold, linked, i);
    PlainMisled(Emphasis, Replaced(Bold, ATOMS, linked), i);
  }

  lemma InCount(a: seq<Atom>, n: nat, i: nat)
    requires Numbers(a) == Count(0, n) && i < n
    ensures From(Numbers(a), 0) && i in Numbers(a)
  {
    CountDistinct(0, n);
    assert Numbers(a)[i] == i;
  }

  lemma LinksMisled(a: seq<Atom>, n: nat, i: nat)
    requires Numbers(a) == Count(0, n) && i < n
    ensures Misled(Replaced(Link, ATOMS, a), i) <==> TangledAbout(a, i)
  {
    var find, crosses := (t: seq<Atom>) => HitAt(Link, ATOMS, t), (t: seq<Atom>) => CrossesAbout(t, i);
    forall b: seq<Atom> | b != [] && find(b).Some?
      ensures (crosses(b) ==> i in Numbers(b)) && (i in Numbers(find(b).value.rest) ==> i in Numbers(b))
    {
      LinkOnlyGoes(b, i);
    }
    forall b: seq<Atom>, k: nat | b != [] && find(b).Some? && From(Numbers(b), k) && k <= i
      ensures HitFacts(b, find(b).value, crosses(b), End(b, find(b).value, k), i)
    {
      LinkHit(b, k, i);
    }
    InCount(a, n, i);
    LinkMisled(find, crosses, a, 0, i);
  }

  lemma NotTangledAbout(a: seq<Atom>, n: nat, i: nat)
    requires Numbers(a) == Count(0, n) && i >= n
    ensures !TangledAbout(a, i)
  {
    var find, crosses := (t: seq<Atom>) => HitAt(Link, ATOMS, t), (t: seq<Atom>) => CrossesAbout(t, i);
    CountDistinct(0, n);
    forall b: seq<Atom> | b != [] && find(b).Some?
      ensures (crosses(b) ==> i in Numbers(b)) && (i in Numbers(find(b).value.rest) ==> i in Numbers(b))
    {
      LinkOnlyGoes(b, i);
    }
    NotAbout(find, crosses, a, i);
  }
}
