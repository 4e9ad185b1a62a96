/** Putting the code spans back by searching for their placeholders, step by step. */
module InlineRestore {
  import opened Text
  import opened InlineRules
  import opened InlineOrder

  // ----- restoration -----

  /** strings.Replace with a limit of one. */
  function ReplaceFirst(s: string, what: string, put: string): string {
    if what <= s then put + s[|what|..]
    else if s == "" then ""
    else [s[0]] + ReplaceFirst(s[1..], what, put)
  }

  /** The spans from number i on go back, each to where its placeholder is found first. */
  function Restored(text: string, spans: seq<string>, i: nat): string
    decreases |spans| - i
  {
    if i >= |spans| then text else Restored(ReplaceFirst(text, Placeholder(i), spans[i]), spans, i + 1)
  }

  /** The reference: every symbol is its span. */
  function Filled(a: seq<Atom>, spans: seq<string>): string {
    if a == [] then ""
    else
      (match a[0]
       case Ch(c) => [c]
       case Span(k) => if k < |spans| then spans[k] else "")
      + Filled(a[1..], spans)
  }

  /** The text on its way: the spans with numbers below i are back. */
  function Partly(a: seq<Atom>, spans: seq<string>, i: nat): string {
    if a == [] then ""
    else
      (match a[0]
       case Ch(c) => [c]
       case Span(k) => if k >= i then Placeholder(k) else if k < |spans| then spans[k] else "")
      + Partly(a[1..], spans, i)
  }

  /** The digits come first, and then a span with number i or more. */
  predicate Reaches(a: seq<Atom>, digits: string, i: nat) {
    match Behind(ATOMS, a, digits)
    case None => false
    case Some(rest) => rest != [] && rest[0].Span? && rest[0].k >= i
  }

  /** The text after the atoms is the number i on its own, and then a span that is not back yet. */
  predicate LooksLike(a: seq<Atom>, i: nat) {
    Reaches(a, Decimal(i), i)
  }

  /**
   * Some span with a greater number stands in front of span i and is followed by just the number i and
   * another span: the end of one placeholder and the start of the next then look like placeholder i.
   */
  predicate Misled(a: seq<Atom>, i: nat) {
    && a != []
    && match a[0]
       case Ch(_) => Misled(a[1..], i)
       case Span(k) => k != i && ((k > i && LooksLike(a[1..], i)) || Misled(a[1..], i))
  }

  lemma {:induction false} ReplacePast(before: string, s: string, mark: string, put: string)
    requires NUL !in before && mark != "" && mark[0] == NUL
    ensures ReplaceFirst(before + s, mark, put) == before + ReplaceFirst(s, mark, put)
  {
    if before == "" {
      assert before + s == s;
    } else {
      assert (before + s)[0] == before[0] && before[0] in before;
      assert (before + s)[1..] == before[1..] + s;
      ReplacePast(before[1..], s, mark, put);
    }
  }

  lemma ReplaceOver(before: string, s: string, k: nat, put: string)
    requires NUL !in before
    ensures ReplaceFirst(before + s, Placeholder(k), put) == before + ReplaceFirst(s, Placeholder(k), put)
  {
    ReplacePast(before, s, Placeholder(k), put);
  }

  lemma ConsPrefix(c: char, p: string, s: string)
    ensures [c] + p <= [c] + s <==> p <= s
  {
    if [c] + p <= [c] + s {
      assert p == ([c] + p)[1..] && s == ([c] + s)[1..];
      forall i | 0 <= i < |p| ensures p[i] == s[i] {
        assert ([c] + p)[i + 1] == ([c] + s)[i + 1];
      }
    }
  }

  function Mark(digits: string): string {
    [NUL] + digits + [NUL]
  }

  lemma OtherMark(d: string, digits: string, rest: string)
    requires NUL !in d && NUL !in digits && d != digits
    ensures !(Mark(digits) <= Mark(d) + rest)
  {
    var s := d + [NUL] + rest;
    assert Mark(d) + rest == [NUL] + s && Mark(digits) == [NUL] + (digits + [NUL]);
    ConsPrefix(NUL, digits + [NUL], s);
    if digits + [NUL] <= s {
      var more := s[|digits| + 1..];
      assert s == digits + [NUL] + more;
      SameFront(d, rest, digits, more);
    }
  }

  lemma SameFront(d: string, rest: string, digits: string, more: string)
    requires NUL !in d && NUL !in digits && d + [NUL] + rest == digits + [NUL] + more
    ensures d == digits
  {
    IndexBehind(d, NUL, rest);
    IndexBehind(digits, NUL, more);
    assert d == (d + [NUL] + rest)[..|d|] && digits == (digits + [NUL] + more)[..|digits|];
  }

  lemma PassEnd(rest: string, digits: string, put: string)
    ensures
      ReplaceFirst([NUL] + rest, Mark(digits), put)
      == if digits + [NUL] <= rest then put + rest[|digits| + 1..]
         else [NUL] + ReplaceFirst(rest, Mark(digits), put)
  {
    var mark, u := Mark(digits), [NUL] + rest;
    assert mark == [NUL] + (digits + [NUL]) && u[0] == NUL && u[1..] == rest;
    ConsPrefix(NUL, digits + [NUL], rest);
    if mark <= u {
      assert u[|mark|..] == rest[|digits| + 1..];
    }
  }

  lemma PassMark(d: string, digits: string, rest: string, put: string)
    requires NUL !in d && NUL !in digits && d != digits
    ensures
      ReplaceFirst(Mark(d) + rest, Mark(digits), put)
      == if digits + [NUL] <= rest then [NUL] + d + put + rest[|digits| + 1..]
         else Mark(d) + ReplaceFirst(rest, Mark(digits), put)
  {
    var s, u := Mark(d) + rest, [NUL] + rest;
    assert s[0] == NUL && s[1..] == d + u;
    OtherMark(d, digits, rest);
    ReplacePast(d, u, Mark(digits), put);
    PassEnd(rest, digits, put);
    assert ReplaceFirst(s, Mark(digits), put) == [NUL] + (d + ReplaceFirst(u, Mark(digits), put));
    if digits + [NUL] <= rest {
      Assoc([NUL] + d, put, rest[|digits| + 1..]);
    } else {
      Assoc([NUL] + d, [NUL], ReplaceFirst(rest, Mark(digits), put));
    }
    Assoc([NUL], d, ReplaceFirst(u, Mark(digits), put));
  }

  lemma DecimalsDiffer(k: nat, i: nat)
    requires k != i
    ensures Decimal(k) != Decimal(i)
  {
    ValueOfDecimal(k);
    ValueOfDecimal(i);
  }

  lemma DecimalNulFree(k: nat)
    ensures NUL !in Decimal(k)
  {
    var d := Decimal(k);
    assert AllDigits(d);
  }

  /** The search passes another placeholder, unless the end of that one already looks like a match. */
  lemma PassPlaceholder(k: nat, i: nat, rest: string, put: string)
    requires k != i
    ensures
      ReplaceFirst(Placeholder(k) + rest, Placeholder(i), put)
      == if Decimal(i) + [NUL] <= rest then [NUL] + Decimal(k) + put + rest[|Decimal(i)| + 1..]
         else Placeholder(k) + ReplaceFirst(rest, Placeholder(i), put)
  {
    DecimalsDiffer(k, i);
    DecimalNulFree(k);
    DecimalNulFree(i);
    PassMark(Decimal(k), Decimal(i), rest, put);
  }

  lemma PartlyHead(a: seq<Atom>, spans: seq<string>, i: nat)
    requires a != [] && i <= |spans| && Spans(spans)
    ensures
      var s := Partly(a, spans, i);
      s != "" && s[0] == if a[0].Ch? then a[0].c else if a[0].k >= i then NUL else '<'
  {
  }

  lemma {:induction false} PartlyBehind(a: seq<Atom>, spans: seq<string>, i: nat, digits: string)
    requires AllDigits(digits) && i <= |spans| && Spans(spans)
    ensures
      Behind(PLAIN, Partly(a, spans, i), digits)
      == match Behind(ATOMS, a, digits) case None => None case Some(rest) => Some(Partly(rest, spans, i))
    decreases |digits|
  {
    if digits != "" && a != [] {
      PartlyHead(a, spans, i);
      assert IsDigit(digits[0]);
      if ATOMS.read(a[0]) == digits[0] {
        PartlyBehind(a[1..], spans, i, digits[1..]);
      }
    }
  }

  lemma ReachesText(a: seq<Atom>, spans: seq<string>, digits: string, i: nat)
    requires AllDigits(digits) && NulFree(a) && i <= |spans| && Spans(spans)
    ensures Reaches(a, digits, i) <==> digits + [NUL] <= Partly(a, spans, i)
  {
    var s := Partly(a, spans, i);
    PartlyBehind(a, spans, i, digits);
    BehindPrefix(s, digits);
    BehindSuffix(ATOMS, a, digits);
    if digits <= s {
      var rest := Behind(ATOMS, a, digits).value;
      assert s == digits + Partly(rest, spans, i);
      EndPrefix(digits, Partly(rest, spans, i));
      if rest != [] {
        PartlyHead(rest, spans, i);
        assert rest[0] in a;
      }
    }
  }

  lemma LooksLikeText(a: seq<Atom>, spans: seq<string>, i: nat)
    requires NulFree(a) && i <= |spans| && Spans(spans)
    ensures LooksLike(a, i) <==> Decimal(i) + [NUL] <= Partly(a, spans, i)
  {
    ReachesText(a, spans, Decimal(i), i);
  }

  lemma EndPrefix(digits: string, rest: string)
    ensures digits + [NUL] <= digits + rest <==> rest != "" && rest[0] == NUL
  {
    if digits + [NUL] <= digits + rest {
      assert (digits + [NUL])[|digits|] == (digits + rest)[|digits|];
    }
  }

  lemma {:induction false} PartlySame(a: seq<Atom>, spans: seq<string>, i: nat)
    requires i < |spans| && i !in Numbers(a)
    ensures Partly(a, spans, i) == Partly(a, spans, i + 1)
  {
    if a != [] {
      assert a[0].Span? ==> Numbers(a)[0] == a[0].k;
      PartlySame(a[1..], spans, i);
    }
  }

  /** Where nothing misleads the search, step i brings span i back to its place. */
  lemma {:induction false} StepRight(a: seq<Atom>, spans: seq<string>, i: nat)
    requires i < |spans| && Spans(spans) && NulFree(a) && Distinct(Numbers(a)) && !Misled(a, i)
    ensures ReplaceFirst(Partly(a, spans, i), Placeholder(i), spans[i]) == Partly(a, spans, i + 1)
  {
    if a != [] {
      var rest := Partly(a[1..], spans, i);
      assert Ch(NUL) != a[0] && NulFree(a[1..]);
      match a[0] {
        case Ch(c) =>
          assert Numbers(a) == Numbers(a[1..]);
          StepRight(a[1..], spans, i);
          ReplaceOver([c], rest, i, spans[i]);
        case Span(k) =>
          assert Numbers(a)[0] == k && Numbers(a)[1..] == Numbers(a[1..]);
          if k == i {
            PartlySame(a[1..], spans, i);
            assert (Placeholder(i) + rest)[|Placeholder(i)|..] == rest;
          } else {
            StepRight(a[1..], spans, i);
            if k < i {
              ReplaceOver(spans[k], rest, i, spans[i]);
            } else {
              LooksLikeText(a[1..], spans, i);
              PassPlaceholder(k, i, rest, spans[i]);
            }
          }
      }
    }
  }

  // ----- a wrong step leaves a NUL for good -----

  ghost predicate OrphanAt(t: string, p: seq<Atom>, k: nat, rest: string) {
    NulFree(p) && t == Spelled(p) + ([NUL] + Decimal(k) + "<" + rest)
  }

  /** Somewhere, with nothing but whole placeholders in front, the start of a placeholder has lost its end. */
  ghost predicate Orphaned(t: string) {
    exists p, k, rest :: OrphanAt(t, p, k, rest)
  }

  lemma OrphanBehind(front: seq<Atom>, t: string)
    requires NulFree(front) && Orphaned(t)
    ensures Orphaned(Spelled(front) + t)
  {
    var p, k, rest :| OrphanAt(t, p, k, rest);
    SpelledAppend(front, p);
    Assoc(Spelled(front), Spelled(p), [NUL] + Decimal(k) + "<" + rest);
    assert OrphanAt(Spelled(front) + t, front + p, k, rest);
  }

  lemma OrphanMade(k: nat, put: string, rest: string)
    requires "<" <= put
    ensures Orphaned([NUL] + Decimal(k) + put + rest)
  {
    assert put == "<" + put[1..];
    assert [NUL] + Decimal(k) + put + rest == Spelled([]) + ([NUL] + Decimal(k) + "<" + (put[1..] + rest));
    assert OrphanAt([NUL] + Decimal(k) + put + rest, [], k, put[1..] + rest);
  }

  lemma PassPlaceholderOrphan(k: nat, i: nat, rest: string, put: string)
    requires k != i && "<" <= put
    requires Decimal(i) + [NUL] <= rest || Orphaned(ReplaceFirst(rest, Placeholder(i), put))
    ensures Orphaned(ReplaceFirst(Placeholder(k) + rest, Placeholder(i), put))
  {
    PassPlaceholder(k, i, rest, put);
    if Decimal(i) + [NUL] <= rest {
      OrphanMade(k, put, rest[|Decimal(i)| + 1..]);
    } else {
      assert Spelled([Span(k)]) == Placeholder(k) + Spelled([]) == Placeholder(k);
      OrphanBehind([Span(k)], ReplaceFirst(rest, Placeholder(i), put));
    }
  }

  lemma TextBehind(front: string, t: string)
    requires NUL !in front && Orphaned(t)
    ensures Orphaned(front + t)
  {
    WrittenNulFree(front);
    SpelledWritten(front);
    OrphanBehind(Written(ATOMS, front), t);
  }

  /** Where the search is misled, step i breaks two other placeholders. */
  lemma {:induction false} StepWrong(a: seq<Atom>, spans: seq<string>, i: nat)
    requires i < |spans| && Spans(spans) && NulFree(a) && Misled(a, i)
    ensures Orphaned(ReplaceFirst(Partly(a, spans, i), Placeholder(i), spans[i]))
  {
    var rest := Partly(a[1..], spans, i);
    assert Ch(NUL) != a[0] && NulFree(a[1..]);
    match a[0] {
      case Ch(c) =>
        StepWrong(a[1..], spans, i);
        ReplaceOver([c], rest, i, spans[i]);
        TextBehind([c], ReplaceFirst(rest, Placeholder(i), spans[i]));
      case Span(k) =>
        if k < i {
          StepWrong(a[1..], spans, i);
          ReplaceOver(spans[k], rest, i, spans[i]);
          TextBehind(spans[k], ReplaceFirst(rest, Placeholder(i), spans[i]));
        } else {
          LooksLikeText(a[1..], spans, i);
          if !LooksLike(a[1..], i) {
            StepWrong(a[1..], spans, i);
          }
          PassPlaceholderOrphan(k, i, rest, spans[i]);
        }
    }
  }

  /** No later step can mend it. */
  lemma {:induction false} OrphanStays(t: string, p: seq<Atom>, k: nat, rest: string, i: nat, put: string)
    requires OrphanAt(t, p, k, rest) && NUL !in put && "<" <= put
    ensures Orphaned(ReplaceFirst(t, Placeholder(i), put))
    decreases |p|
  {
    var orphan := [NUL] + Decimal(k) + "<" + rest;
    if p == [] {
      LoneOrphan(k, rest, i, put);
      assert t == orphan;
    } else {
      var u := Spelled(p[1..]) + orphan;
      Assoc(Spelling(p[0]), Spelled(p[1..]), orphan);
      assert Ch(NUL) != p[0] && OrphanAt(u, p[1..], k, rest);
      if p[0] == Span(i) {
        assert (Placeholder(i) + u)[|Placeholder(i)|..] == u;
        TextBehind(put, u);
      } else {
        OrphanStays(u, p[1..], k, rest, i, put);
        if p[0].Ch? {
          ReplaceOver([p[0].c], u, i, put);
          TextBehind([p[0].c], ReplaceFirst(u, Placeholder(i), put));
        } else {
          PassPlaceholderOrphan(p[0].k, i, u, put);
        }
      }
    }
  }

  lemma CutOff(k: nat, rest: string, i: nat)
    ensures !(Decimal(i) + [NUL] <= Decimal(k) + "<" + rest)
  {
    var mark, t := Decimal(i) + [NUL], Decimal(k) + "<" + rest;
    var m, n := |Decimal(i)|, |Decimal(k)|;
    assert mark[m] == NUL && t[n] == '<';
    assert m < n ==> IsDigit(t[m]);
    assert n < m ==> IsDigit(mark[n]);
  }

  lemma LoneOrphan(k: nat, rest: string, i: nat, put: string)
    ensures Orphaned(ReplaceFirst([NUL] + Decimal(k) + "<" + rest, Placeholder(i), put))
  {
    var u := Decimal(k) + "<" + rest;
    assert [NUL] + Decimal(k) + "<" + rest == [NUL] + u;
    CutOff(k, rest, i);
    PassEnd(u, Decimal(i), put);
    ReplaceOver(Decimal(k) + "<", rest, i, put);
    var more := ReplaceFirst(rest, Placeholder(i), put);
    assert [NUL] + (Decimal(k) + "<" + more) == [NUL] + Decimal(k) + "<" + more;
    OrphanMade(k, "<", more);
  }

  lemma {:induction false} OrphanRemains(t: string, spans: seq<string>, i: nat)
    requires Orphaned(t) && Spans(spans)
    ensures NUL in Restored(t, spans, i)
    decreases |spans| - i
  {
    var p, k, rest :| OrphanAt(t, p, k, rest);
    if i >= |spans| {
      assert t[|Spelled(p)|] == NUL;
    } else {
      OrphanStays(t, p, k, rest, i, spans[i]);
      OrphanRemains(ReplaceFirst(t, Placeholder(i), spans[i]), spans, i + 1);
    }
  }

  /** All steps together, from step i on. */
  lemma {:induction false} RestoredOrNot(a: seq<Atom>, spans: seq<string>, i: nat)
    requires i <= |spans| && Spans(spans) && NulFree(a) && Distinct(Numbers(a))
    ensures
      var t := Restored(Partly(a, spans, i), spans, i);
      if exists j :: i <= j < |spans| && Misled(a, j) then NUL in t else t == Partly(a, spans, |spans|)
    decreases |spans| - i
  {
    if i < |spans| {
      if Misled(a, i) {
        StepWrong(a, spans, i);
        OrphanRemains(ReplaceFirst(Partly(a, spans, i), Placeholder(i), spans[i]), spans, i + 1);
      } else {
        StepRight(a, spans, i);
        RestoredOrNot(a, spans, i + 1);
      }
    }
  }
}
