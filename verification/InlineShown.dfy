/** What a reader of the page gets to see: families of inline texts with their markup, from source to page. */
module InlineShown {
  import opened Text
  import opened InlineRules
  import opened InlineRestore
  import opened Inline
  import opened InlineSpec

  /** Text without a character that a rule mentions. */
  predicate Ordinary(s: string) {
    Without(s, "`*[]()") && NUL !in s
  }

  lemma {:induction false} EscapeAppend(a: string, b: string)
    ensures Escape(a + b) == Escape(a) + Escape(b)
  {
    if a == "" {
      assert a + b == b;
    } else {
      assert (a + b)[0] == a[0] && (a + b)[1..] == a[1..] + b;
      EscapeAppend(a[1..], b);
      Assoc(EscapeChar(a[0]), Escape(a[1..]), Escape(b));
    }
  }

  /** The characters of entities. */
  predicate InEntity(c: char) {
    c == '&' || c == ';' || c == '#' || IsDigit(c) || 'a' <= c <= 'z'
  }

  predicate Spares(stops: string) {
    forall c :: c in stops ==> !InEntity(c)
  }

  lemma EntityChars(c: char)
    ensures forall x :: x in EscapeChar(c) ==> x == c || InEntity(x)
  {
  }

  /** Escaping brings in only characters of entities. */
  lemma {:induction false} EscapeWithout(s: string, stops: string)
    requires Without(s, stops) && Spares(stops)
    ensures Without(Escape(s), stops)
  {
    if s != "" {
      assert s[0] in s && forall c :: c in s[1..] ==> c in s;
      EscapeWithout(s[1..], stops);
      EntityChars(s[0]);
    }
  }

  lemma EscapeOrdinary(s: string)
    requires Ordinary(s)
    ensures Ordinary(Escape(s)) && (s != "" ==> Escape(s) != "")
  {
    EscapeWithout(s, "`*[]()");
    EscapeKeepsOut(s);
    if s != "" {
      EscapedChar(s[0]);
    }
  }

  lemma OrdinaryChars(s: string)
    requires Ordinary(s)
    ensures '`' !in s && '*' !in s && '[' !in s && ']' !in s && '(' !in s && ')' !in s && NUL !in s
  {
    assert forall c :: c in s ==> c !in "`*[]()";
  }

  // ----- one rule at one place -----

  function Opening(rule: Rule): char {
    if rule.Link? then '[' else '*'
  }

  lemma HitOpens(rule: Rule, s: string)
    requires s == "" || s[0] != Opening(rule)
    ensures HitAt(rule, PLAIN, s) == None
  {
    if rule.Link? {
      NothingBehind(s, '[', "[");
    } else {
      NothingBehind(s, '*', "**");
      NothingBehind(s, '*', "*");
    }
  }

  lemma NothingBehind(s: string, c: char, literal: string)
    requires (s == "" || s[0] != c) && literal != "" && literal[0] == c
    ensures Behind(PLAIN, s, literal) == None
  {
  }

  lemma NoHitInText(rule: Rule, front: string, rest: string)
    requires Opening(rule) !in front
    ensures NoHitIn((t: string) => HitAt(rule, PLAIN, t), front, rest)
  {
    forall k | 0 <= k < |front| ensures HitAt(rule, PLAIN, front[k..] + rest) == None {
      assert (front[k..] + rest)[0] == front[k] && front[k] in front;
      HitOpens(rule, front[k..] + rest);
    }
  }

  lemma RuleSkips(rule: Rule, s: string)
    requires Opening(rule) !in s
    ensures Replaced(rule, PLAIN, s) == s
  {
    var find := (t: string) => HitAt(rule, PLAIN, t);
    NoHitInText(rule, s, []);
    FirstHitReplaced(find, s, []);
    assert s + [] == s;
  }

  /** A rule that hits once. */
  lemma RuleOnce(rule: Rule, front: string, s: string, replacement: string, back: string)
    requires Opening(rule) !in front && Opening(rule) !in back
    requires s != "" && HitAt(rule, PLAIN, s) == Some(Hit(replacement, back)) && |back| < |s|
    ensures Replaced(rule, PLAIN, front + s) == front + (replacement + back)
  {
    var find := (t: string) => HitAt(rule, PLAIN, t);
    NoHitInText(rule, front, s);
    FirstHitReplaced(find, front, s);
    RuleSkips(rule, back);
  }

  lemma NoCodeNoSpans(s: string)
    requires '`' !in Escape(s)
    ensures Inlined(s) == Styled(PLAIN, Escape(s))
  {
    var esc := Escape(s);
    forall k | 0 <= k < |esc| ensures CodeAt(esc[k..]) == None {
      assert esc[k] in esc;
      BehindPrefix(esc[k..], "`");
    }
    NoCode(esc, 0, 0);
    assert esc[0..] == esc;
  }

  // ----- the families -----

  lemma EscapeAround(front: string, open: string, body: string, close: string, back: string)
    ensures
      Escape(front + (open + body + close + back))
      == Escape(front) + (Escape(open) + Escape(body) + Escape(close) + Escape(back))
  {
    EscapeAppend(front, open + body + close + back);
    EscapeAppend(open + body + close, back);
    EscapeAppend(open + body, close);
    EscapeAppend(open, body);
  }

  /** One of the marks that rules look for. */
  predicate IsMark(s: string) {
    s == "*" || s == "**" || s == "[" || s == "](" || s == ")" || s == "`"
  }

  lemma MarkEscapes(s: string)
    requires IsMark(s)
    ensures Escape(s) == s
  {
    EscapeNothing(s);
  }

  lemma NotInFour(c: char, open: string, body: string, close: string, back: string)
    requires c !in open && c !in body && c !in close && c !in back
    ensures c !in open + body + close + back
  {
  }

  /** A text in which a marked body stands once, after escaping. */
  lemma MarkedText(front: string, open: string, body: string, close: string, back: string)
    requires Ordinary(front) && Ordinary(body) && Ordinary(back) && IsMark(open) && IsMark(close)
    requires '`' !in open && '`' !in close
    ensures
      var m := open + Escape(body) + close + Escape(back);
      Inlined(front + (open + body + close + back)) == Styled(PLAIN, Escape(front) + m)
  {
    MarkEscapes(open);
    MarkEscapes(close);
    EscapeAround(front, open, body, close, back);
    EscapeOrdinary(front);
    EscapeOrdinary(body);
    EscapeOrdinary(back);
    OrdinaryChars(Escape(front));
    OrdinaryChars(Escape(body));
    OrdinaryChars(Escape(back));
    NotInFour('`', open, Escape(body), close, Escape(back));
    NoCodeNoSpans(front + (open + body + close + back));
  }

  lemma OnlyBold(f: string, m: string, strong: string, g: string)
    requires '[' !in f && '[' !in m && '*' !in f && '*' !in strong && '*' !in g
    requires m != "" && BoldAt(PLAIN, m) == Some(Hit(strong, g))
    ensures Styled(PLAIN, f + m) == f + (strong + g)
  {
    RuleSkips(Link, f + m);
    assert HitAt(Bold, PLAIN, m) == Some(Hit(strong, g));
    RuleOnce(Bold, f, m, strong, g);
    RuleSkips(Emphasis, f + (strong + g));
  }

  /** Bold text is shown in strong tags, and all around it stays. */
  lemma BoldShown(front: string, body: string, back: string)
    requires Ordinary(front) && Ordinary(body) && Ordinary(back) && body != ""
    ensures
      Inlined(front + ("**" + body + "**" + back))
      == Escape(front) + ("<strong>" + Escape(body) + "</strong>" + Escape(back))
  {
    var f, b, g := Escape(front), Escape(body), Escape(back);
    assert '`' !in "**" && IsMark("**");
    MarkedText(front, "**", body, "**", back);
    EscapeOrdinary(front);
    EscapeOrdinary(body);
    EscapeOrdinary(back);
    StyledBold(f, b, g, "**" + b + "**" + g, "<strong>" + b + "</strong>");
  }

  lemma StyledBold(f: string, b: string, g: string, m: string, strong: string)
    requires Ordinary(f) && Ordinary(b) && Ordinary(g) && b != ""
    requires m == "**" + b + "**" + g && strong == "<strong>" + b + "</strong>"
    ensures Styled(PLAIN, f + m) == f + (strong + g)
  {
    OrdinaryChars(f);
    OrdinaryChars(b);
    OrdinaryChars(g);
    NotInFour('[', "**", b, "**", g);
    TagsHaveNoStar();
    NotInFour('*', "<strong>", b, "</strong>", "");
    assert strong + "" == strong;
    assert IsBold(m, b, g);
    BoldIff(m, Hit(strong, g));
    OnlyBold(f, m, strong, g);
  }

  lemma TagsHaveNoStar()
    ensures '*' !in "<strong>" && '*' !in "</strong>" && '*' !in "<em>" && '*' !in "</em>"
  {
  }

  lemma OnlyEmphasis(f: string, m: string, em: string, g: string)
    requires '[' !in f && '[' !in m && '*' !in f && '*' !in g
    requires m != "" && EmphasisAt(PLAIN, m) == Some(Hit(em, g))
    requires Replaced(Bold, PLAIN, f + m) == f + m
    ensures Styled(PLAIN, f + m) == f + (em + g)
  {
    RuleSkips(Link, f + m);
    assert HitAt(Emphasis, PLAIN, m) == Some(Hit(em, g));
    RuleOnce(Emphasis, f, m, em, g);
  }

  /** Emphasis likewise, when its text neither starts nor ends with white space. */
  lemma EmphasisShown(front: string, body: string, back: string)
    requires Ordinary(front) && Ordinary(body) && Ordinary(back) && body != ""
    requires body[0] !in SPACE && body[|body| - 1] !in SPACE
    ensures
      Inlined(front + ("*" + body + "*" + back))
      == Escape(front) + ("<em>" + Escape(body) + "</em>" + Escape(back))
  {
    var f, b, g := Escape(front), Escape(body), Escape(back);
    assert '`' !in "*" && IsMark("*");
    MarkedText(front, "*", body, "*", back);
    EscapeOrdinary(front);
    EscapeOrdinary(body);
    EscapeOrdinary(back);
    EscapeEnds(body);
    StyledEmphasis(f, b, g, "*" + b + "*" + g, "<em>" + b + "</em>");
  }

  /** What is escaped starts and ends with white space only if the text does. */
  lemma EscapeEnds(s: string)
    requires s != "" && s[0] !in SPACE && s[|s| - 1] !in SPACE
    ensures Escape(s) != "" && Escape(s)[0] !in SPACE && Escape(s)[|Escape(s)| - 1] !in SPACE
  {
    var n := |s| - 1;
    NoSpaceEscaped(s[0]);
    NoSpaceEscaped(s[n]);
    EscapeAppend(s[..n], [s[n]]);
    assert s == s[..n] + [s[n]] && [s[n]][1..] == "";
    assert Escape([s[n]]) == EscapeChar(s[n]) + "";
  }

  lemma NoSpaceEscaped(c: char)
    requires c !in SPACE
    ensures EscapeChar(c) != "" && EscapeChar(c)[0] !in SPACE && EscapeChar(c)[|EscapeChar(c)| - 1] !in SPACE
  {
  }

  lemma StyledEmphasis(f: string, b: string, g: string, m: string, em: string)
    requires Ordinary(f) && Ordinary(b) && Ordinary(g) && b != "" && b[0] !in SPACE && b[|b| - 1] !in SPACE
    requires m == "*" + b + "*" + g && em == "<em>" + b + "</em>"
    ensures Styled(PLAIN, f + m) == f + (em + g)
  {
    OrdinaryChars(f);
    OrdinaryChars(b);
    OrdinaryChars(g);
    NotInFour('[', "*", b, "*", g);
    NotBold(f, b, g, m);
    assert IsEmphasis(m, b, g);
    EmphasisIff(m, Hit(em, g));
    OnlyEmphasis(f, m, em, g);
  }

  /** Two single stars are no bold. */
  lemma NotBold(f: string, b: string, g: string, m: string)
    requires '*' !in f && '*' !in b && '*' !in g && b != "" && m == "*" + b + "*" + g
    ensures Replaced(Bold, PLAIN, f + m) == f + m
  {
    var s := f + m;
    forall k | 0 <= k < |s| ensures HitAt(Bold, PLAIN, s[k..]) == None {
      BehindPrefix(s[k..], "**");
      NoTwoStars(f, b, g, s, k);
    }
    NoRule(Bold, s);
  }

  lemma NoTwoStars(f: string, b: string, g: string, s: string, k: nat)
    requires '*' !in f && '*' !in b && '*' !in g && b != "" && s == f + ("*" + b + "*" + g) && k < |s|
    ensures !("**" <= s[k..])
  {
    if k + 1 < |s| {
      assert s[k..][0] == s[k] && s[k..][1] == s[k + 1];
      assert forall i :: 0 <= i < |s| ==> (s[i] == '*' <==> i == |f| || i == |f| + 1 + |b|);
    }
  }

  lemma OnlyLink(f: string, m: string, link: string, g: string)
    requires '[' !in f && '[' !in g && '*' !in f && '*' !in link && '*' !in g
    requires m != "" && LinkAt(PLAIN, m) == Some(Hit(link, g))
    ensures Styled(PLAIN, f + m) == f + (link + g)
  {
    assert HitAt(Link, PLAIN, m) == Some(Hit(link, g));
    RuleOnce(Link, f, m, link, g);
    RuleSkips(Bold, f + (link + g));
    RuleSkips(Emphasis, f + (link + g));
  }

  lemma EscapeLink(
    front: string, open: string, caption: string, mid: string, target: string, close: string, back: string)
    requires IsMark(open) && IsMark(mid) && IsMark(close)
    ensures
      Escape(front + (open + caption + mid + target + close + back))
      == Escape(front) + (open + Escape(caption) + mid + Escape(target) + close + Escape(back))
  {
    MarkEscapes(open);
    MarkEscapes(mid);
    MarkEscapes(close);
    EscapeAround(front, open + caption + mid, target, close, back);
    EscapeAppend(open + caption, mid);
    EscapeAppend(open, caption);
  }

  lemma NotInSix(c: char, p: string, x: string, q: string, y: string, r: string, z: string)
    requires c !in p && c !in x && c !in q && c !in y && c !in r && c !in z
    ensures c !in p + x + q + y + r + z
  {
  }

  /** A link is shown as an anchor when its target is safe, and as it was written otherwise. */
  lemma LinkShown(front: string, caption: string, target: string, back: string)
    requires Ordinary(front) && Ordinary(caption) && Ordinary(target) && Ordinary(back)
    requires caption != "" && target != "" && Without(target, SPACE)
    ensures
      Inlined(front + ("[" + caption + "](" + target + ")" + back))
      == Escape(front) + (LinkText(Escape(caption), Escape(target)) + Escape(back))
  {
    var f, c, t, g := Escape(front), Escape(caption), Escape(target), Escape(back);
    var m := "[" + c + "](" + t + ")" + g;
    EscapeLink(front, "[", caption, "](", target, ")", back);
    LinkEscapes(front, caption, target, back);
    StyledLink(f, c, t, g, m, LinkText(c, t));
    RenderedAs(front + ("[" + caption + "](" + target + ")" + back), f + m);
  }

  lemma RenderedAs(s: string, esc: string)
    requires Escape(s) == esc && '`' !in esc
    ensures Inlined(s) == Styled(PLAIN, esc)
  {
    NoCodeNoSpans(s);
  }

  lemma LinkEscapes(front: string, caption: string, target: string, back: string)
    requires Ordinary(front) && Ordinary(caption) && Ordinary(target) && Ordinary(back)
    requires caption != "" && target != "" && Without(target, SPACE)
    ensures Ordinary(Escape(front)) && Ordinary(Escape(caption)) && Ordinary(Escape(target)) && Ordinary(Escape(back))
    ensures Escape(caption) != "" && Escape(target) != "" && Without(Escape(target), SPACE)
  {
    EscapeOrdinary(front);
    EscapeOrdinary(caption);
    EscapeOrdinary(target);
    EscapeOrdinary(back);
    TargetEscapes(target);
  }

  lemma TargetEscapes(target: string)
    requires Without(target, SPACE)
    ensures Without(Escape(target), SPACE)
  {
    EscapeWithout(target, SPACE);
  }

  lemma CodeEscapes(code: string)
    requires code != "" && Without(code, "`")
    ensures Escape(code) != "" && Without(Escape(code), "`")
  {
    EscapeWithout(code, "`");
    EscapedChar(code[0]);
  }

  lemma StyledLink(f: string, c: string, t: string, g: string, m: string, link: string)
    requires Ordinary(f) && Ordinary(c) && Ordinary(t) && Ordinary(g) && c != "" && t != "" && Without(t, SPACE)
    requires m == "[" + c + "](" + t + ")" + g && link == LinkText(c, t)
    ensures Styled(PLAIN, f + m) == f + (link + g) && '`' !in f + m
  {
    OrdinaryChars(f);
    OrdinaryChars(c);
    OrdinaryChars(t);
    OrdinaryChars(g);
    NotInSix('`', "[", c, "](", t, ")", g);
    NoStarInLink(c, t);
    assert IsLink(m, c, t, g) by {
      NoStops(c, t);
    }
    LinkFound(m, c, t, g);
    OnlyLink(f, m, link, g);
  }

  lemma NoStops(c: string, t: string)
    requires Ordinary(c) && Ordinary(t) && Without(t, SPACE)
    ensures Without(c, "[]") && Without(t, "()\t\n\U{0C}\r ")
  {
    OrdinaryChars(c);
    OrdinaryChars(t);
  }

  lemma NoStarInLink(c: string, t: string)
    requires '*' !in c && '*' !in t
    ensures '*' !in LinkText(c, t)
  {
    AnchorHasNoStar();
    NotInSix('*', "<a href=\"", t, "\">", c, "</a>", "");
    NotInSix('*', "[", c, "](", t, ")", "");
    assert forall s: string :: s + "" == s;
  }

  lemma AnchorHasNoStar()
    ensures '*' !in "<a href=\"" && '*' !in "\">" && '*' !in "</a>" && '*' !in "[" && '*' !in "](" && '*' !in ")"
  {
  }

  // ----- code -----

  lemma {:induction false} CodeSkips(front: string, rest: string, k: nat)
    requires '`' !in front
    ensures Spelled(Extracted(front + rest, k)) == front + Spelled(Extracted(rest, k))
    ensures CodeSpans(front + rest) == CodeSpans(rest)
  {
    if front == "" {
      assert front + rest == rest;
    } else {
      var c, more := front[0], front[1..];
      assert front == [c] + more && front[0] in front;
      Assoc([c], more, rest);
      CodeSkips(more, rest, k);
      ExtractedOther(c, more + rest, k);
      NoSpanAt(c, more + rest);
      OneMoreChar(c, Extracted(more + rest, k));
      Assoc([c], more, Spelled(Extracted(rest, k)));
    }
  }

  lemma NoSpanAt(c: char, rest: string)
    requires c != '`'
    ensures CodeSpans([c] + rest) == CodeSpans(rest)
  {
    assert ([c] + rest)[1..] == rest;
    BehindPrefix([c] + rest, "`");
  }

  lemma OneMoreChar(c: char, a: seq<Atom>)
    ensures Spelled([Ch(c)] + a) == [c] + Spelled(a)
  {
    assert ([Ch(c)] + a)[1..] == a;
  }

  lemma OneMoreSpan(k: nat, a: seq<Atom>)
    ensures Spelled([Span(k)] + a) == Placeholder(k) + Spelled(a)
  {
    assert ([Span(k)] + a)[1..] == a;
  }

  lemma CodeTaken(code: string, back: string)
    requires code != "" && '`' !in code && '`' !in back
    ensures Spelled(Extracted("`" + code + "`" + back, 0)) == Placeholder(0) + back
    ensures CodeSpans("`" + code + "`" + back) == [CodeSpan(code)]
  {
    var s := "`" + code + "`" + back;
    CodeIff(s, code, back);
    CodeSkips(back, "", 1);
    assert back + "" == back;
    OneMoreSpan(0, Extracted(back, 1));
  }

  lemma ZeroMark()
    ensures Placeholder(0) == [NUL, '0', NUL]
    ensures '[' !in Placeholder(0) && '*' !in Placeholder(0) && Placeholder(0) != ""
  {
    assert Decimal(0) == ['0'];
  }

  lemma PutBack(f: string, g: string, span: string)
    requires NUL !in f
    ensures Restored(f + (Placeholder(0) + g), [span], 0) == f + (span + g)
  {
    ReplaceOver(f, Placeholder(0) + g, 0, span);
    assert (Placeholder(0) + g)[|Placeholder(0)|..] == g;
  }

  /** Code is shown as it is written, in code tags, whatever marks stand in it. */
  lemma CodeShown(front: string, code: string, back: string)
    requires Ordinary(front) && Ordinary(back) && code != "" && Without(code, "`")
    ensures
      Inlined(front + ("`" + code + "`" + back))
      == Escape(front) + ("<code>" + Escape(code) + "</code>" + Escape(back))
  {
    var f, c, g := Escape(front), Escape(code), Escape(back);
    MarkEscapes("`");
    EscapeAround(front, "`", code, "`", back);
    EscapeOrdinary(front);
    EscapeOrdinary(back);
    CodeEscapes(code);
    CodeRendered(f, c, g);
  }

  lemma CodeRendered(f: string, c: string, g: string)
    requires Ordinary(f) && Ordinary(g) && c != "" && Without(c, "`")
    ensures
      var esc := f + ("`" + c + "`" + g);
      Restored(Styled(PLAIN, Spelled(Extracted(esc, 0))), CodeSpans(esc), 0) == f + ("<code>" + c + "</code>" + g)
  {
    OrdinaryChars(f);
    OrdinaryChars(g);
    CodeSkips(f, "`" + c + "`" + g, 0);
    CodeTaken(c, g);
    ZeroMark();
    var text := f + (Placeholder(0) + g);
    RuleSkips(Link, text);
    RuleSkips(Bold, text);
    RuleSkips(Emphasis, text);
    PutBack(f, g, CodeSpan(c));
  }
}
