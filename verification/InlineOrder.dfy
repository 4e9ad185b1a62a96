/** What the inline rules do to the code spans: none is lost or doubled, and only links can reorder them. */
module InlineOrder {
  import opened InlineRules

  // ----- the order of the code spans -----

  function Numbers(a: seq<Atom>): seq<nat> {
    if a == [] then [] else (if a[0].Span? then [a[0].k] else []) + Numbers(a[1..])
  }

  function Count(k: nat, n: nat): seq<nat>
    decreases n
  {
    if n == 0 then [] else [k] + Count(k + 1, n - 1)
  }

  lemma {:induction false} NumbersAppend(a: seq<Atom>, b: seq<Atom>)
    ensures Numbers(a + b) == Numbers(a) + Numbers(b)
  {
    if a == [] {
      assert a + b == b;
    } else {
      assert (a + b)[0] == a[0] && (a + b)[1..] == a[1..] + b;
      NumbersAppend(a[1..], b);
    }
  }

  lemma {:induction false} NumbersWritten(s: string)
    ensures Numbers(Written(ATOMS, s)) == []
  {
    if s != "" {
      NumbersWritten(s[1..]);
    }
  }

  /** Extraction numbers the code spans in order. */
  lemma {:induction false} ExtractedInOrder(s: string, k: nat)
    ensures Numbers(Extracted(s, k)) == Count(k, |CodeSpans(s)|)
    decreases |s|
  {
    if s != "" {
      match CodeAt(s) {
        case Some(cut) =>
          ExtractedInOrder(cut.rest, k + 1);
          assert Extracted(s, k)[1..] == Extracted(cut.rest, k + 1);
        case None =>
          ExtractedInOrder(s[1..], k);
          assert Extracted(s, k)[1..] == Extracted(s[1..], k);
      }
    }
  }

  ghost predicate Distinct<T>(s: seq<T>) {
    forall i, j :: 0 <= i < j < |s| ==> s[i] != s[j]
  }

  lemma {:induction false} CountDistinct(k: nat, n: nat)
    ensures |Count(k, n)| == n && Distinct(Count(k, n))
    ensures forall i :: 0 <= i < n ==> Count(k, n)[i] == k + i
    decreases n
  {
    if n > 0 {
      CountDistinct(k + 1, n - 1);
    }
  }

  /** What a rule does to the order of the spans: nothing, except where it is said to cross. */
  ghost predicate Moves(find: Finder<Atom>, crosses: seq<Atom> -> bool) {
    forall a: seq<Atom> :: a != [] && find(a).Some? ==> MovesAt(a, find(a).value, crosses(a))
  }

  ghost predicate MovesAt(a: seq<Atom>, hit: Hit<Atom>, crosses: bool) {
    var moved := Numbers(hit.replacement);
    && |hit.rest| < |a| && |moved| <= |Numbers(a)|
    && Numbers(a)[|moved|..] == Numbers(hit.rest)
    && multiset(moved) == multiset(Numbers(a)[..|moved|])
    && (Distinct(Numbers(a)) ==> (moved == Numbers(a)[..|moved|] <==> !crosses))
  }

  /** Whether the rule crosses anywhere on its way through the text. */
  predicate Crossed(find: Finder<Atom>, crosses: seq<Atom> -> bool, a: seq<Atom>)
    decreases |a|
  {
    a != []
    && match find(a)
       case Some(hit) => crosses(a) || (|hit.rest| < |a| && Crossed(find, crosses, hit.rest))
       case None => Crossed(find, crosses, a[1..])
  }

  /** Every span stays, exactly once, and the order stays if and only if the rule crosses nowhere. */
  lemma {:induction false} OrderKept(find: Finder<Atom>, crosses: seq<Atom> -> bool, a: seq<Atom>)
    requires Moves(find, crosses) && Distinct(Numbers(a))
    ensures |Numbers(ReplaceAll(find, a))| == |Numbers(a)|
    ensures multiset(Numbers(ReplaceAll(find, a))) == multiset(Numbers(a))
    ensures Numbers(ReplaceAll(find, a)) == Numbers(a) <==> !Crossed(find, crosses, a)
    decreases |a|
  {
    if a != [] {
      match find(a) {
        case Some(hit) =>
          assert MovesAt(a, hit, crosses(a));
          OrderKept(find, crosses, hit.rest);
          SplitOrder(Numbers(a), Numbers(hit.replacement), Numbers(ReplaceAll(find, hit.rest)));
          NumbersAppend(hit.replacement, ReplaceAll(find, hit.rest));
        case None =>
          assert a == [a[0]] + a[1..];
          NumbersAppend([a[0]], a[1..]);
          assert Numbers(a)[|Numbers([a[0]])|..] == Numbers(a[1..]);
          OrderKept(find, crosses, a[1..]);
          NumbersAppend([a[0]], ReplaceAll(find, a[1..]));
          SplitOrder(Numbers(a), Numbers([a[0]]), Numbers(ReplaceAll(find, a[1..])));
      }
    }
  }

  lemma SplitOrder(whole: seq<nat>, front: seq<nat>, back: seq<nat>)
    requires |front| + |back| == |whole|
    requires multiset(front) == multiset(whole[..|front|]) && multiset(back) == multiset(whole[|front|..])
    ensures multiset(front + back) == multiset(whole)
    ensures front + back == whole <==> front == whole[..|front|] && back == whole[|front|..]
  {
    assert whole == whole[..|front|] + whole[|front|..];
    assert (front + back)[..|front|] == front && (front + back)[|front|..] == back;
  }

  lemma {:induction false} BehindNumbers(a: seq<Atom>, literal: string)
    requires NUL !in literal
    ensures
      var rest := Behind(ATOMS, a, literal);
      rest.Some? ==> Numbers(rest.value) == Numbers(a)
    decreases |literal|
  {
    if literal != "" && a != [] && ATOMS.read(a[0]) == literal[0] {
      BehindNumbers(a[1..], literal[1..]);
    }
  }

  lemma DelimitedNumbers(a: seq<Atom>, open: string, stops: string, close: string)
    requires NUL !in open && NUL !in close
    ensures
      var cut := Delimited(ATOMS, a, open, stops, close);
      cut.Some? ==> Numbers(a) == Numbers(cut.value.body) + Numbers(cut.value.rest)
  {
    var t := Behind(ATOMS, a, open);
    BehindNumbers(a, open);
    if t.Some? {
      var n := Run(ATOMS, t.value, stops);
      assert t.value == t.value[..n] + t.value[n..];
      NumbersAppend(t.value[..n], t.value[n..]);
      BehindNumbers(t.value[n..], close);
    }
  }

  lemma WrappedNumbers(open: string, body: seq<Atom>, close: string)
    ensures Numbers(Wrapped(ATOMS, open, body, close)) == Numbers(body)
  {
    NumbersAppend(Written(ATOMS, open) + body, Written(ATOMS, close));
    NumbersAppend(Written(ATOMS, open), body);
    NumbersWritten(open);
    NumbersWritten(close);
  }

  lemma FramedNumbers(p: string, x: seq<Atom>, q: string, y: seq<Atom>, r: string)
    ensures Numbers(Framed(ATOMS, p, x, q, y, r)) == Numbers(x) + Numbers(y)
  {
    NumbersAppend(Wrapped(ATOMS, p, x, q) + y, Written(ATOMS, r));
    NumbersAppend(Wrapped(ATOMS, p, x, q), y);
    WrappedNumbers(p, x, q);
    NumbersWritten(r);
  }

  predicate NeverCrosses(a: seq<Atom>) {
    false
  }

  /** A link is rewritten here, with code spans both in its text and in its target. */
  predicate LinkCrosses(a: seq<Atom>) {
    match Delimited(ATOMS, a, "[", "[]", "]")
    case None => false
    case Some(caption) =>
      match Delimited(ATOMS, caption.rest, "(", "()" + SPACE, ")")
      case None => false
      case Some(target) =>
        SafeLinkTarget(ATOMS, target.body) && Numbers(caption.body) != [] && Numbers(target.body) != []
  }

  lemma BoldMoves(a: seq<Atom>)
    ensures BoldAt(ATOMS, a).Some? ==> MovesAt(a, BoldAt(ATOMS, a).value, false)
  {
    DelimitedNumbers(a, "**", "*", "**");
    var cut := Delimited(ATOMS, a, "**", "*", "**");
    if cut.Some? {
      WrappedNumbers("<strong>", cut.value.body, "</strong>");
    }
  }

  lemma EmphasisMoves(a: seq<Atom>)
    ensures EmphasisAt(ATOMS, a).Some? ==> MovesAt(a, EmphasisAt(ATOMS, a).value, false)
  {
    DelimitedNumbers(a, "*", "*", "*");
    var cut := Delimited(ATOMS, a, "*", "*", "*");
    if cut.Some? {
      WrappedNumbers("<em>", cut.value.body, "</em>");
    }
  }

  lemma LinkMoves(a: seq<Atom>)
    ensures LinkAt(ATOMS, a).Some? ==> MovesAt(a, LinkAt(ATOMS, a).value, LinkCrosses(a))
  {
    DelimitedNumbers(a, "[", "[]", "]");
    var caption := Delimited(ATOMS, a, "[", "[]", "]");
    if caption.Some? {
      DelimitedNumbers(caption.value.rest, "(", "()" + SPACE, ")");
      var target := Delimited(ATOMS, caption.value.rest, "(", "()" + SPACE, ")");
      if target.Some? {
        var x, y := caption.value.body, target.value.body;
        FramedNumbers("<a href=\"", y, "\">", x, "</a>");
        FramedNumbers("[", x, "](", y, ")");
        Swapped(Numbers(x), Numbers(y), Numbers(target.value.rest));
      }
    }
  }

  lemma Swapped(x: seq<nat>, y: seq<nat>, rest: seq<nat>)
    ensures
      var whole := x + (y + rest);
      && |x + y| == |y + x| <= |whole|
      && whole[..|x + y|] == x + y && whole[|x + y|..] == rest
      && multiset(y + x) == multiset(x + y)
      && (Distinct(whole) ==> (y + x == x + y <==> x == [] || y == []))
  {
    var whole := x + (y + rest);
    if x != [] && y != [] {
      assert whole[0] == x[0] && whole[|x|] == y[0];
      assert (y + x)[0] == y[0] && (x + y)[0] == x[0];
    }
  }

  /** Some rewritten link has code spans both in its text and in its target. */
  predicate Tangled(a: seq<Atom>) {
    Crossed((t: seq<Atom>) => HitAt(Link, ATOMS, t), LinkCrosses, a)
  }

  /** The three rules lose and duplicate no code span, and keep their order unless links tangle them. */
  lemma StyledOrder(a: seq<Atom>)
    requires Distinct(Numbers(a))
    ensures multiset(Numbers(Styled(ATOMS, a))) == multiset(Numbers(a))
    ensures Numbers(Styled(ATOMS, a)) == Numbers(a) <==> !Tangled(a)
  {
    var linked := Replaced(Link, ATOMS, a);
    LinkOrder(a);
    SameItemsDistinct(Numbers(a), Numbers(linked));
    PlainOrder(Bold, linked);
    PlainOrder(Emphasis, Replaced(Bold, ATOMS, linked));
  }

  lemma LinkOrder(a: seq<Atom>)
    requires Distinct(Numbers(a))
    ensures multiset(Numbers(Replaced(Link, ATOMS, a))) == multiset(Numbers(a))
    ensures Numbers(Replaced(Link, ATOMS, a)) == Numbers(a) <==> !Tangled(a)
  {
    var find := (t: seq<Atom>) => HitAt(Link, ATOMS, t);
    forall b: seq<Atom> | b != [] && find(b).Some? ensures MovesAt(b, find(b).value, LinkCrosses(b)) {
      LinkMoves(b);
    }
    OrderKept(find, LinkCrosses, a);
  }

  lemma {:induction false} CrossedNever(find: Finder<Atom>, a: seq<Atom>)
    ensures !Crossed(find, NeverCrosses, a)
    decreases |a|
  {
    if a != [] {
      match find(a) {
        case Some(hit) => if |hit.rest| < |a| { CrossedNever(find, hit.rest); }
        case None => CrossedNever(find, a[1..]);
      }
    }
  }

  lemma PlainOrder(rule: Rule, a: seq<Atom>)
    requires !rule.Link? && Distinct(Numbers(a))
    ensures Numbers(Replaced(rule, ATOMS, a)) == Numbers(a)
  {
    var find := (t: seq<Atom>) => HitAt(rule, ATOMS, t);
    forall b: seq<Atom> | b != [] && find(b).Some? ensures MovesAt(b, find(b).value, NeverCrosses(b)) {
      if rule.Bold? { BoldMoves(b); } else { EmphasisMoves(b); }
    }
    OrderKept(find, NeverCrosses, a);
    CrossedNever(find, a);
  }

  lemma Twice(b: seq<nat>, i: nat, j: nat)
    requires i < j < |b|
    ensures b[i] == b[j] ==> multiset(b)[b[i]] >= 2
  {
    assert b == b[..j] + b[j..];
    assert b[i] == b[..j][i] && b[j] == b[j..][0];
  }

  lemma SameItemsDistinct(a: seq<nat>, b: seq<nat>)
    requires Distinct(a) && multiset(a) == multiset(b)
    ensures Distinct(b)
  {
    AtMostOnce(a);
    forall i, j | 0 <= i < j < |b| ensures b[i] != b[j] {
      Twice(b, i, j);
    }
  }

  lemma {:induction false} AtMostOnce(a: seq<nat>)
    requires Distinct(a)
    ensures forall x :: multiset(a)[x] <= 1
  {
    if a != [] {
      assert a == [a[0]] + a[1..];
      AtMostOnce(a[1..]);
      assert a[0] !in a[1..];
    }
  }

  // ----- no NUL comes in on the way -----

  predicate NulFree(a: seq<Atom>) {
    Ch(NUL) !in a
  }

  ghost predicate Spans(spans: seq<string>) {
    forall k :: 0 <= k < |spans| ==> NUL !in spans[k] && "<" <= spans[k]
  }

  lemma {:induction false} BehindSuffix<A>(al: Alphabet<A>, s: seq<A>, literal: string)
    ensures
      var rest := Behind(al, s, literal);
      rest.Some? ==> |literal| <= |s| && rest.value == s[|literal|..]
    decreases |literal|
  {
    if literal != "" && s != [] && al.read(s[0]) == literal[0] {
      BehindSuffix(al, s[1..], literal[1..]);
    }
  }

  lemma DelimitedWithin<A>(al: Alphabet<A>, s: seq<A>, open: string, stops: string, close: string, x: A)
    requires x !in s
    ensures
      var cut := Delimited(al, s, open, stops, close);
      cut.Some? ==> x !in cut.value.body && x !in cut.value.rest
  {
    BehindSuffix(al, s, open);
    var t := Behind(al, s, open);
    if t.Some? {
      BehindSuffix(al, t.value[Run(al, t.value, stops)..], close);
    }
  }

  lemma {:induction false} WrittenNulFree(s: string)
    requires NUL !in s
    ensures NulFree(Written(ATOMS, s))
  {
    if s != "" {
      WrittenNulFree(s[1..]);
    }
  }

  lemma WrappedNulFree(open: string, body: seq<Atom>, close: string)
    requires NUL !in open && NulFree(body) && NUL !in close
    ensures NulFree(Wrapped(ATOMS, open, body, close))
  {
    WrittenNulFree(open);
    WrittenNulFree(close);
  }

  /** One pair of delimiters in place of another brings no NUL in. */
  lemma RewrappedNulFree(a: seq<Atom>, open: string, stops: string, close: string, p: string, q: string)
    requires NulFree(a) && NUL !in p && NUL !in q
    ensures
      var cut := Delimited(ATOMS, a, open, stops, close);
      cut.Some? ==> NulFree(Wrapped(ATOMS, p, cut.value.body, q)) && NulFree(cut.value.rest)
  {
    DelimitedWithin(ATOMS, a, open, stops, close, Ch(NUL));
    var cut := Delimited(ATOMS, a, open, stops, close);
    if cut.Some? {
      WrappedNulFree(p, cut.value.body, q);
    }
  }

  lemma BoldNulFree(a: seq<Atom>)
    requires NulFree(a) && BoldAt(ATOMS, a).Some?
    ensures NulFree(BoldAt(ATOMS, a).value.replacement) && NulFree(BoldAt(ATOMS, a).value.rest)
  {
    RewrappedNulFree(a, "**", "*", "**", "<strong>", "</strong>");
  }

  lemma EmphasisNulFree(a: seq<Atom>)
    requires NulFree(a) && EmphasisAt(ATOMS, a).Some?
    ensures NulFree(EmphasisAt(ATOMS, a).value.replacement) && NulFree(EmphasisAt(ATOMS, a).value.rest)
  {
    RewrappedNulFree(a, "*", "*", "*", "<em>", "</em>");
  }

  lemma FramedNulFree(p: string, x: seq<Atom>, q: string, y: seq<Atom>, r: string)
    requires NUL !in p && NulFree(x) && NUL !in q && NulFree(y) && NUL !in r
    ensures NulFree(Framed(ATOMS, p, x, q, y, r))
  {
    WrappedNulFree(p, x, q);
    WrittenNulFree(r);
  }

  lemma LinkedNulFree(caption: seq<Atom>, target: seq<Atom>)
    requires NulFree(caption) && NulFree(target)
    ensures NulFree(Linked(ATOMS, caption, target))
  {
    if SafeLinkTarget(ATOMS, target) {
      FramedNulFree("<a href=\"", target, "\">", caption, "</a>");
    } else {
      FramedNulFree("[", caption, "](", target, ")");
    }
  }

  lemma TargetNulFree(caption: seq<Atom>, a: seq<Atom>)
    requires NulFree(caption) && NulFree(a) && TargetAt(ATOMS, caption, a).Some?
    ensures NulFree(TargetAt(ATOMS, caption, a).value.replacement) && NulFree(TargetAt(ATOMS, caption, a).value.rest)
  {
    DelimitedWithin(ATOMS, a, "(", "()" + SPACE, ")", Ch(NUL));
    LinkedNulFree(caption, Delimited(ATOMS, a, "(", "()" + SPACE, ")").value.body);
  }

  lemma LinkNulFree(a: seq<Atom>)
    requires NulFree(a) && LinkAt(ATOMS, a).Some?
    ensures NulFree(LinkAt(ATOMS, a).value.replacement) && NulFree(LinkAt(ATOMS, a).value.rest)
  {
    DelimitedWithin(ATOMS, a, "[", "[]", "]", Ch(NUL));
    var cut := Delimited(ATOMS, a, "[", "[]", "]").value;
    TargetNulFree(cut.body, cut.rest);
  }

  lemma HitNulFree(rule: Rule, a: seq<Atom>)
    requires NulFree(a) && HitAt(rule, ATOMS, a).Some?
    ensures NulFree(HitAt(rule, ATOMS, a).value.replacement) && NulFree(HitAt(rule, ATOMS, a).value.rest)
  {
    match rule
    case Link => LinkNulFree(a);
    case Bold => BoldNulFree(a);
    case Emphasis => EmphasisNulFree(a);
  }

  lemma {:induction false} ReplacedNulFree(find: Finder<Atom>, a: seq<Atom>)
    requires NulFree(a)
    requires forall b :: NulFree(b) && find(b).Some? ==>
      NulFree(find(b).value.replacement) && NulFree(find(b).value.rest)
    ensures NulFree(ReplaceAll(find, a))
    decreases |a|
  {
    if a != [] {
      match find(a) {
        case Some(hit) => if |hit.rest| < |a| { ReplacedNulFree(find, hit.rest); }
        case None => ReplacedNulFree(find, a[1..]);
      }
    }
  }

  lemma StyledNulFree(a: seq<Atom>)
    requires NulFree(a)
    ensures NulFree(Styled(ATOMS, a))
  {
    RuleNulFree(Link, a);
    RuleNulFree(Bold, Replaced(Link, ATOMS, a));
    RuleNulFree(Emphasis, Replaced(Bold, ATOMS, Replaced(Link, ATOMS, a)));
  }

  lemma RuleNulFree(rule: Rule, a: seq<Atom>)
    requires NulFree(a)
    ensures NulFree(Replaced(rule, ATOMS, a))
  {
    var find := (t: seq<Atom>) => HitAt(rule, ATOMS, t);
    forall b | NulFree(b) && find(b).Some? ensures NulFree(find(b).value.replacement) && NulFree(find(b).value.rest) {
      HitNulFree(rule, b);
    }
    ReplacedNulFree(find, a);
  }

  lemma {:induction false} ExtractedNulFree(s: string, k: nat)
    requires NUL !in s
    ensures NulFree(Extracted(s, k)) && Spans(CodeSpans(s))
    decreases |s|
  {
    if s != "" {
      DelimitedWithin(PLAIN, s, "`", "`", "`", NUL);
      match CodeAt(s) {
        case Some(cut) => ExtractedNulFree(cut.rest, k + 1);
        case None => ExtractedNulFree(s[1..], k);
      }
    }
  }
}
