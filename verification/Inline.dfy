/** Inline markdown as a whole: when every code span comes back to its own place, and when it does not. */
module Inline {
  import opened Text
  import opened InlineRules
  import opened InlineOrder
  import opened InlineRestore
  import opened InlineMisled

  // ----- the renderer -----

  function Inlined(s: string): string {
    var esc := Escape(s);
    Restored(Styled(PLAIN, Spelled(Extracted(esc, 0))), CodeSpans(esc), 0)
  }

  /** The reference: the rules never see inside a code span, nor where its content comes from. */
  function Opaque(s: string): string {
    var esc := Escape(s);
    Filled(Styled(ATOMS, Extracted(esc, 0)), CodeSpans(esc))
  }

  /** codeSpanRe.ReplaceAllStringFunc, with the closure that collects the spans. */
  method ExtractCode(s: string) returns (text: string, spans: seq<string>)
    ensures text == Spelled(Extracted(s, 0)) && spans == CodeSpans(s)
  {
    text, spans := "", [];
    var t := s;
    while t != ""
      invariant Spelled(Extracted(s, 0)) == text + Spelled(Extracted(t, |spans|))
      invariant CodeSpans(s) == spans + CodeSpans(t)
      decreases |t|
    {
      match CodeAt(t) {
        case Some(cut) =>
          Assoc(text, Placeholder(|spans|), Spelled(Extracted(cut.rest, |spans| + 1)));
          Assoc(spans, [CodeSpan(cut.body)], CodeSpans(cut.rest));
          text, spans, t := text + Placeholder(|spans|), spans + [CodeSpan(cut.body)], cut.rest;
        case None =>
          Assoc(text, [t[0]], Spelled(Extracted(t[1..], |spans|)));
          text, t := text + [t[0]], t[1..];
      }
    }
  }

  method RenderInline(s: string) returns (html: string)
    ensures html == Inlined(s)
  {
    var spans;
    html, spans := ExtractCode(Escape(s));
    html := Replaced(Link, PLAIN, html);
    html := Replaced(Bold, PLAIN, html);
    html := Replaced(Emphasis, PLAIN, html);
    for i := 0 to |spans|
      invariant Restored(html, spans, i) == Inlined(s)
    {
      html := ReplaceFirst(html, Placeholder(i), spans[i]);
    }
  }

  lemma {:induction false} PartlyBounds(a: seq<Atom>, spans: seq<string>)
    requires forall k :: k in Numbers(a) ==> k < |spans|
    ensures Partly(a, spans, 0) == Spelled(a)
    ensures Partly(a, spans, |spans|) == Filled(a, spans)
  {
    if a != [] {
      assert a[0].Span? ==> Numbers(a)[0] == a[0].k && a[0].k in Numbers(a);
      assert forall k :: k in Numbers(a[1..]) ==> k in Numbers(a);
      PartlyBounds(a[1..], spans);
    }
  }

  lemma {:induction false} FilledNulFree(a: seq<Atom>, spans: seq<string>)
    requires NulFree(a) && Spans(spans)
    ensures NUL !in Filled(a, spans)
  {
    if a != [] {
      assert Ch(NUL) != a[0] && NulFree(a[1..]);
      FilledNulFree(a[1..], spans);
    }
  }

  /** What the rules leave for restoration: every span once, and no NUL. */
  lemma ReadyToRestore(atoms: seq<Atom>, n: nat)
    requires NulFree(atoms) && Numbers(atoms) == Count(0, n)
    ensures
      var a := Styled(ATOMS, atoms);
      && NulFree(a) && Distinct(Numbers(a)) && (forall k :: k in Numbers(a) ==> k < n)
      && (Numbers(a) == Count(0, n) <==> !Tangled(atoms))
  {
    var a := Styled(ATOMS, atoms);
    CountDistinct(0, n);
    StyledOrder(atoms);
    StyledNulFree(atoms);
    SameItemsDistinct(Numbers(atoms), Numbers(a));
    SameItemsBelow(Numbers(atoms), Numbers(a), n);
  }

  lemma SameItemsBelow(a: seq<nat>, b: seq<nat>, n: nat)
    requires a == Count(0, n) && multiset(b) == multiset(a)
    ensures forall k :: k in b ==> k < n
  {
    CountDistinct(0, n);
    forall k | k in b ensures k < n {
      assert k in multiset(b);
    }
  }

  lemma RestoredIff(atoms: seq<Atom>, spans: seq<string>)
    requires NulFree(atoms) && Numbers(atoms) == Count(0, |spans|) && Spans(spans)
    ensures
      var a := Styled(ATOMS, atoms);
      var t := Restored(Styled(PLAIN, Spelled(atoms)), spans, 0);
      && NUL !in Filled(a, spans)
      && if exists i :: 0 <= i < |spans| && Misled(a, i) then NUL in t else t == Filled(a, spans)
  {
    var a := Styled(ATOMS, atoms);
    ReadyToRestore(atoms, |spans|);
    StyledSpelled(atoms);
    PartlyBounds(a, spans);
    FilledNulFree(a, spans);
    RestoredOrNot(a, spans, 0);
  }

  lemma ExtractedReady(esc: string)
    requires NUL !in esc
    ensures
      var atoms, spans := Extracted(esc, 0), CodeSpans(esc);
      NulFree(atoms) && Numbers(atoms) == Count(0, |spans|) && Spans(spans)
  {
    ExtractedInOrder(esc, 0);
    ExtractedNulFree(esc, 0);
  }

  /**
   * In the text as it is before the rules: a link is going to be rewritten that has code span i in its text
   * and, in its target, just the number i between two other code spans.
   */
  predicate MisledAbout(s: string, i: nat) {
    TangledAbout(Extracted(Escape(s), 0), i)
  }

  lemma MisledAboutIff(s: string, i: nat)
    ensures MisledAbout(s, i) <==> i < |CodeSpans(Escape(s))| && Misled(Styled(ATOMS, Extracted(Escape(s), 0)), i)
  {
    var atoms, n := Extracted(Escape(s), 0), |CodeSpans(Escape(s))|;
    ExtractedInOrder(Escape(s), 0);
    if i < n {
      MisledIff(atoms, n, i);
    } else {
      NotTangledAbout(atoms, n, i);
    }
  }

  /**
   * For every text without NUL: each code span comes back exactly once and in its own place if and only
   * if the search is misled about none of them; and otherwise a NUL is left in the page.
   */
  lemma SpansReturnIff(s: string)
    requires NUL !in s
    ensures Inlined(s) == Opaque(s) <==> !exists i :: MisledAbout(s, i)
    ensures NUL in Inlined(s) <==> exists i :: MisledAbout(s, i)
    ensures NUL !in Opaque(s)
  {
    EscapeKeepsOut(s);
    ExtractedReady(Escape(s));
    RestoredIff(Extracted(Escape(s), 0), CodeSpans(Escape(s)));
    var a, n := Styled(ATOMS, Extracted(Escape(s), 0)), |CodeSpans(Escape(s))|;
    if i: nat :| i < n && Misled(a, i) {
      MisledAboutIff(s, i);
    }
    if i: nat :| MisledAbout(s, i) {
      MisledAboutIff(s, i);
    }
  }

  /**
   * Unless a rewritten link has code spans both in its text and in its target, every code span comes
   * back exactly once, in order and with no NUL left, whatever stands between the spans.
   */
  lemma SpansReturn(s: string)
    requires NUL !in s && !Tangled(Extracted(Escape(s), 0))
    ensures Inlined(s) == Opaque(s) && NUL !in Inlined(s)
    ensures Numbers(Styled(ATOMS, Extracted(Escape(s), 0))) == Count(0, |CodeSpans(Escape(s))|)
  {
    var a, n := Styled(ATOMS, Extracted(Escape(s), 0)), |CodeSpans(Escape(s))|;
    EscapeKeepsOut(s);
    ExtractedReady(Escape(s));
    ReadyToRestore(Extracted(Escape(s), 0), n);
    CountDistinct(0, n);
    forall i | MisledAbout(s, i) ensures false {
      MisledAboutIff(s, i);
      InOrderIsClear(a, 0, i);
    }
    SpansReturnIff(s);
  }

  // ----- a family of texts that lose their spans -----

  lemma {:induction false} EscapeNothing(s: string)
    requires forall c :: c in s ==> c !in "&<>\"'"
    ensures Escape(s) == s
  {
    if s != "" {
      assert s[0] in s;
      EscapeNothing(s[1..]);
    }
  }

  /** A stretch of code in a page's source. */
  function Quoted(x: string): string {
    "`" + x + "`"
  }

  lemma {:induction false} RunToStop(body: string, c: char, rest: string)
    requires c !in body
    ensures Run(PLAIN, body + [c] + rest, [c]) == |body|
  {
    assert body + [c] + rest == body + ([c] + rest);
    RunOver(body, [c] + rest, [c]);
  }

  lemma ExtractedQuoted(x: string, rest: string, k: nat)
    requires x != "" && '`' !in x
    ensures Extracted(Quoted(x) + rest, k) == [Span(k)] + Extracted(rest, k + 1)
  {
    var s, t := Quoted(x) + rest, x + "`" + rest;
    assert s[0] == '`' && s[1..] == t;
    RunToStop(x, '`', rest);
    BehindPrefix(s, "`");
    assert t[..|x|] == x && t[|x|..] == "`" + rest;
    BehindPrefix("`" + rest, "`");
    assert CodeAt(s) == Some(Cut(x, rest));
  }

  lemma ExtractedOther(c: char, rest: string, k: nat)
    requires c != '`'
    ensures Extracted([c] + rest, k) == [Ch(c)] + Extracted(rest, k)
  {
    assert ([c] + rest)[1..] == rest;
    BehindPrefix([c] + rest, "`");
  }

  lemma {:induction false} Untouched(find: Finder<Atom>, a: seq<Atom>)
    requires Ch('*') !in a && forall b :: Ch('*') !in b ==> find(b) == None
    ensures ReplaceAll(find, a) == a
  {
    if a != [] {
      Untouched(find, a[1..]);
      assert [a[0]] + a[1..] == a;
    }
  }

  lemma HitNeedsStar(rule: Rule, b: seq<Atom>)
    requires !rule.Link? && Ch('*') !in b
    ensures HitAt(rule, ATOMS, b) == None
  {
    assert b != [] ==> b[0] != Ch('*');
    if rule.Bold? {
      assert Behind(ATOMS, b, "**") == None;
    } else {
      assert Behind(ATOMS, b, "*") == None;
    }
  }

  lemma NoStarNoRule(rule: Rule, a: seq<Atom>)
    requires !rule.Link? && Ch('*') !in a
    ensures Replaced(rule, ATOMS, a) == a
  {
    var find := (t: seq<Atom>) => HitAt(rule, ATOMS, t);
    forall b | Ch('*') !in b ensures find(b) == None {
      HitNeedsStar(rule, b);
    }
    Untouched(find, a);
  }

  /** A link with code in its text, whose target is just two stretches of code around the digit 0. */
  function CodeLink(x: string, y: string, z: string): string {
    "[" + (Quoted(x) + ("](" + CodeTarget(y, z)))
  }

  function CodeTarget(y: string, z: string): string {
    Quoted(y) + ("0" + (Quoted(z) + ")"))
  }

  function TargetAtoms(): seq<Atom> {
    [Span(1), Ch('0'), Span(2)]
  }

  lemma ExtractedTail(y: string, z: string)
    requires '`' !in y && '`' !in z && y != "" && z != ""
    ensures Extracted(CodeTarget(y, z), 1) == TargetAtoms() + [Ch(')')]
  {
    var d := Quoted(z) + ")";
    ExtractedQuoted(y, "0" + d, 1);
    ExtractedOther('0', d, 2);
    ExtractedQuoted(z, ")", 2);
    assert ")" == [')'] + "";
    ExtractedOther(')', "", 3);
  }

  lemma ExtractedCodeLink(x: string, y: string, z: string)
    requires '`' !in x && '`' !in y && '`' !in z && x != "" && y != "" && z != ""
    ensures
      Extracted(CodeLink(x, y, z), 0)
      == [Ch('[')] + ([Span(0)] + ([Ch(']')] + ([Ch('(')] + (TargetAtoms() + [Ch(')')]))))
  {
    var t := CodeTarget(y, z);
    ExtractedHead(x, "](" + t);
    ExtractedMiddle(t);
    ExtractedTail(y, z);
  }

  lemma ExtractedHead(x: string, rest: string)
    requires '`' !in x && x != ""
    ensures Extracted("[" + (Quoted(x) + rest), 0) == [Ch('[')] + ([Span(0)] + Extracted(rest, 1))
  {
    ExtractedOther('[', Quoted(x) + rest, 0);
    ExtractedQuoted(x, rest, 0);
  }

  lemma ExtractedMiddle(t: string)
    ensures Extracted("](" + t, 1) == [Ch(']')] + ([Ch('(')] + Extracted(t, 1))
  {
    assert "](" + t == [']'] + (['('] + t);
    ExtractedOther('(', t, 1);
    ExtractedOther(']', ['('] + t, 1);
  }

  lemma {:induction false} RunToAtom(body: seq<Atom>, stops: string, rest: seq<Atom>)
    requires forall i :: 0 <= i < |body| ==> ATOMS.read(body[i]) !in stops
    requires rest != [] && ATOMS.read(rest[0]) in stops
    ensures Run(ATOMS, body + rest, stops) == |body|
  {
    if body == [] {
      assert body + rest == rest;
    } else {
      assert (body + rest)[1..] == body[1..] + rest;
      RunToAtom(body[1..], stops, rest);
    }
  }

  lemma BehindOne(c: char, rest: seq<Atom>)
    ensures Behind(ATOMS, [Ch(c)] + rest, [c]) == Some(rest)
  {
    assert ([Ch(c)] + rest)[1..] == rest && [c][1..] == "";
    assert Behind(ATOMS, rest, [c][1..]) == Some(rest);
  }

  lemma DelimitedWritten(open: char, body: seq<Atom>, stops: string, close: char, rest: seq<Atom>)
    requires body != [] && close in stops && forall i :: 0 <= i < |body| ==> ATOMS.read(body[i]) !in stops
    ensures
      Delimited(ATOMS, [Ch(open)] + (body + ([Ch(close)] + rest)), [open], stops, [close]) == Some(Cut(body, rest))
  {
    var t := [Ch(close)] + rest;
    var s := body + t;
    assert ([Ch(open)] + s)[1..] == s && t[1..] == rest;
    BehindOne(open, s);
    BehindOne(close, rest);
    RunToAtom(body, stops, t);
    assert s[..|body|] == body && s[|body|..] == t;
  }

  lemma CodeLinkRewritten(a: seq<Atom>, target: seq<Atom>)
    requires a == [Ch('[')] + ([Span(0)] + ([Ch(']')] + ([Ch('(')] + (target + ([Ch(')')] + [])))))
    requires target == [Span(1), Ch('0'), Span(2)]
    ensures LinkAt(ATOMS, a) == Some(Hit(Linked(ATOMS, [Span(0)], target), []))
  {
    var u := [Ch('(')] + (target + ([Ch(')')] + []));
    assert "[" == ['['] && "]" == [']'] && "(" == ['('] && ")" == [')'];
    DelimitedWritten('[', [Span(0)], "[]", ']', u);
    assert Delimited(ATOMS, a, "[", "[]", "]") == Some(Cut([Span(0)], u));
    DelimitedWritten('(', target, "()" + SPACE, ')', []);
    assert Delimited(ATOMS, u, "(", "()" + SPACE, ")") == Some(Cut(target, []));
    assert TargetAt(ATOMS, [Span(0)], u) == Some(Hit(Linked(ATOMS, [Span(0)], target), []));
    assert LinkAt(ATOMS, a) == TargetAt(ATOMS, [Span(0)], u);
  }

  lemma {:induction false} WrittenWithout(s: string, c: char)
    requires c !in s
    ensures Ch(c) !in Written(ATOMS, s)
  {
    if s != "" {
      WrittenWithout(s[1..], c);
    }
  }

  lemma LoneHit(find: Finder<Atom>, a: seq<Atom>, replacement: seq<Atom>)
    requires a != [] && find(a) == Some(Hit(replacement, []))
    ensures ReplaceAll(find, a) == replacement
  {
    assert replacement + [] == replacement;
  }

  lemma CodeLinkStyled(a: seq<Atom>, linked: seq<Atom>)
    requires LinkAt(ATOMS, a) == Some(Hit(linked, [])) && a != [] && Ch('*') !in linked
    ensures Styled(ATOMS, a) == linked
  {
    var find := (t: seq<Atom>) => HitAt(Link, ATOMS, t);
    assert find(a) == Some(Hit(linked, []));
    LoneHit(find, a, linked);
    NoStarNoRule(Bold, linked);
    NoStarNoRule(Emphasis, linked);
  }

  lemma LinkedMisleads(caption: seq<Atom>, target: seq<Atom>)
    requires target == [Span(1), Ch('0'), Span(2)] && Ch('*') !in caption
    ensures Ch('*') !in Linked(ATOMS, caption, target) && Misled(Linked(ATOMS, caption, target), 0)
  {
    SafeTarget(target);
    var front, middle, end := "<a href=\"", "\">", "</a>";
    FramedMisleads(front, target, middle, caption, end);
  }

  lemma FramedMisleads(p: string, target: seq<Atom>, q: string, caption: seq<Atom>, r: string)
    requires target == [Span(1), Ch('0'), Span(2)] && Ch('*') !in caption && '*' !in p && '*' !in q && '*' !in r
    ensures Ch('*') !in Framed(ATOMS, p, target, q, caption, r)
    ensures Misled(Framed(ATOMS, p, target, q, caption, r), 0)
  {
    var a := target + (Written(ATOMS, q) + caption + Written(ATOMS, r));
    assert a[0] == Span(1) && a[1..][0] == Ch('0') && a[1..][1..][0] == Span(2);
    assert Decimal(0) == "0";
    assert LooksLike(a[1..], 0);
    MisledBehind(p, a, 0);
    assert Framed(ATOMS, p, target, q, caption, r) == Written(ATOMS, p) + a;
    WrittenWithout(p, '*');
    WrittenWithout(q, '*');
    WrittenWithout(r, '*');
  }

  lemma SafeTarget(target: seq<Atom>)
    requires target == [Span(1), Ch('0'), Span(2)]
    ensures SafeLinkTarget(ATOMS, target)
  {
    assert Run(ATOMS, target[1..][1..], ":") == 1;
    assert Run(ATOMS, target[1..], ":") == 2;
  }

  /** `CodeLink` is such a text: the first span is put between the other two, and NULs stay in the page. */
  lemma CodeLinkLost(x: string, y: string, z: string)
    requires x != "" && y != "" && z != ""
    requires forall c :: c in x + y + z ==> c !in "`&<>\"'" && c != NUL
    ensures NUL !in CodeLink(x, y, z)
    ensures NUL in Inlined(CodeLink(x, y, z))
    ensures Inlined(CodeLink(x, y, z)) != Opaque(CodeLink(x, y, z))
  {
    CodeLinkPlain(x, y, z);
    EscapeNothing(CodeLink(x, y, z));
    CodeLinkMisled(x, y, z);
    MisledBySome(CodeLink(x, y, z));
    SpansReturnIff(CodeLink(x, y, z));
  }

  lemma CodeLinkMisled(x: string, y: string, z: string)
    requires '`' !in x && '`' !in y && '`' !in z && x != "" && y != "" && z != ""
    ensures
      var a := Extracted(CodeLink(x, y, z), 0);
      Numbers(a) != [] && Misled(Styled(ATOMS, a), 0)
  {
    ExtractedCodeLink(x, y, z);
    assert [Ch(')')] + [] == [Ch(')')];
    AtomsMisled(Extracted(CodeLink(x, y, z), 0), TargetAtoms());
  }

  lemma AtomsMisled(a: seq<Atom>, target: seq<Atom>)
    requires a == [Ch('[')] + ([Span(0)] + ([Ch(']')] + ([Ch('(')] + (target + ([Ch(')')] + [])))))
    requires target == [Span(1), Ch('0'), Span(2)]
    ensures Numbers(a) != [] && Misled(Styled(ATOMS, a), 0)
  {
    CodeLinkRewritten(a, target);
    LinkedMisleads([Span(0)], target);
    CodeLinkStyled(a, Linked(ATOMS, [Span(0)], target));
    SpanSecond(a);
  }

  lemma SpanSecond(a: seq<Atom>)
    requires |a| > 1 && a[1].Span?
    ensures Numbers(a) != []
  {
    assert a[1..][0] == a[1];
    assert Numbers(a[1..])[0] == a[1].k;
  }

  lemma CodeLinkPlain(x: string, y: string, z: string)
    requires forall c :: c in x + y + z ==> c !in "`&<>\"'" && c != NUL
    ensures '`' !in x && '`' !in y && '`' !in z
    ensures forall c :: c in CodeLink(x, y, z) ==> c !in "&<>\"'" && c != NUL
  {
    assert forall c :: c in x || c in y || c in z ==> c in x + y + z;
  }

  lemma MisledBySome(s: string)
    requires Numbers(Extracted(Escape(s), 0)) != [] && Misled(Styled(ATOMS, Extracted(Escape(s), 0)), 0)
    ensures MisledAbout(s, 0)
  {
    ExtractedInOrder(Escape(s), 0);
    MisledAboutIff(s, 0);
  }
}
