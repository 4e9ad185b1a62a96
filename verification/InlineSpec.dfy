/**
 * The inline rules as patterns over plain strings: what escaping writes and how it is read back, and
 * exactly which texts are code spans, links, bold and emphasis.
 */
module InlineSpec {
  import opened Text
  import opened InlineRules
  import opened Inline

  // ----- escaping, read back -----

  /** What a browser makes of the five entities; any other text is itself. */
  function Unescape(s: string): string {
    if s == "" then ""
    else if "&amp;" <= s then "&" + Unescape(s[5..])
    else if "&lt;" <= s then "<" + Unescape(s[4..])
    else if "&gt;" <= s then ">" + Unescape(s[4..])
    else if "&#34;" <= s then "\"" + Unescape(s[5..])
    else if "&#39;" <= s then "'" + Unescape(s[5..])
    else [s[0]] + Unescape(s[1..])
  }

  predicate Entity(s: string) {
    "&amp;" <= s || "&lt;" <= s || "&gt;" <= s || "&#34;" <= s || "&#39;" <= s
  }

  /** No character of markup is left, and every ampersand starts an entity. */
  predicate Harmless(s: string) {
    && (forall c :: c in s ==> c !in "<>\"'")
    && (forall k :: 0 <= k < |s| && s[k] == '&' ==> Entity(s[k..]))
  }

  lemma HarmlessFront(e: string, rest: string)
    requires Harmless(rest) && e != "" && (forall k :: 0 < k < |e| ==> e[k] != '&')
    requires (forall c :: c in e ==> c !in "<>\"'") && (e[0] == '&' ==> Entity(e + rest))
    ensures Harmless(e + rest)
  {
    var s := e + rest;
    forall k | 0 <= k < |s| && s[k] == '&' ensures Entity(s[k..]) {
      if k >= |e| {
        assert s[k..] == rest[k - |e|..];
      } else {
        assert s[k..] == s;
      }
    }
  }

  lemma HarmlessChar(c: char, rest: string)
    requires Harmless(rest)
    ensures Harmless(EscapeChar(c) + rest)
  {
    EscapedChar(c);
    var e := EscapeChar(c);
    PrefixStays(e, rest);
    HarmlessFront(e, rest);
  }

  lemma EscapedChar(c: char)
    ensures
      var e := EscapeChar(c);
      && e != "" && (forall k :: 0 < k < |e| ==> e[k] != '&') && (forall x :: x in e ==> x !in "<>\"'")
      && (if c in "&<>\"'" then e in ["&amp;", "&lt;", "&gt;", "&#34;", "&#39;"] else e == [c])
  {
  }

  lemma PrefixStays(e: string, rest: string)
    ensures e in ["&amp;", "&lt;", "&gt;", "&#34;", "&#39;"] ==> Entity(e + rest)
  {
    assert e <= e + rest;
  }

  lemma EntityBack(c: char, rest: string)
    ensures Unescape(EscapeChar(c) + rest) == [c] + Unescape(rest)
  {
    var e := EscapeChar(c);
    var s := e + rest;
    assert s[|e|..] == rest && e <= s;
    if c in "&<>\"'" {
      OneEntity(s, e, c);
    } else {
      assert s[0] == c;
    }
  }

  /** No two entities start alike. */
  lemma OneEntity(s: string, e: string, c: char)
    requires e <= s && c in "&<>\"'" && e == EscapeChar(c)
    ensures Unescape(s) == [c] + Unescape(s[|e|..])
  {
    assert s[1] == e[1];
    if c == '"' || c == '\'' {
      assert s[3] == e[3];
    }
  }

  /** What is escaped is harmless, and a browser shows the text it was. */
  lemma {:induction false} EscapeShows(s: string)
    ensures Harmless(Escape(s)) && Unescape(Escape(s)) == s
  {
    if s != "" {
      EscapeShows(s[1..]);
      HarmlessChar(s[0], Escape(s[1..]));
      EntityBack(s[0], Escape(s[1..]));
      assert [s[0]] + s[1..] == s;
    }
  }

  // ----- the patterns -----

  predicate Without(s: string, stops: string) {
    forall c :: c in s ==> c !in stops
  }

  lemma {:induction false} RunStops(body: string, rest: string, stops: string)
    requires Without(body, stops) && rest != "" && rest[0] in stops
    ensures Run(PLAIN, body + rest, stops) == |body|
  {
    RunOver(body, rest, stops);
  }

  lemma {:induction false} RunWithout(s: string, stops: string)
    ensures
      var n := Run(PLAIN, s, stops);
      (forall k :: 0 <= k < n ==> s[k] !in stops) && (n < |s| ==> s[n] in stops)
  {
    if s != "" && s[0] !in stops {
      RunWithout(s[1..], stops);
    }
  }

  /** Such a pattern matches exactly a body between its two literals, which none of the stops is in. */
  lemma DelimitedIff(s: string, open: string, stops: string, close: string, body: string, rest: string)
    requires close != "" && close[0] in stops
    ensures
      Delimited(PLAIN, s, open, stops, close) == Some(Cut(body, rest))
      <==> s == open + body + close + rest && body != "" && Without(body, stops)
  {
    BehindPrefix(s, open);
    if open <= s {
      var t := s[|open|..];
      var n := Run(PLAIN, t, stops);
      RunWithout(t, stops);
      BehindPrefix(t[n..], close);
      if s == open + body + close + rest && Without(body, stops) {
        DelimitedFound(s, open, stops, close, body, rest);
      }
      if Delimited(PLAIN, s, open, stops, close) == Some(Cut(body, rest)) {
        Reassembled(s, open, t, n, close, rest);
      }
    } else if s == open + body + close + rest {
      FrontOf(open, body, close, rest);
    }
  }

  lemma FrontOf(a: string, b: string, c: string, d: string)
    ensures a <= a + b + c + d && (a + b + c + d)[|a|..] == b + (c + d)
  {
  }

  lemma DelimitedFound(s: string, open: string, stops: string, close: string, body: string, rest: string)
    requires close != "" && close[0] in stops
    requires s == open + body + close + rest && Without(body, stops)
    ensures s[|open|..] == body + (close + rest) && Run(PLAIN, s[|open|..], stops) == |body|
    ensures s[|open|..][..|body|] == body && s[|open|..][|body|..] == close + rest && (close + rest)[|close|..] == rest
  {
    FrontOf(open, body, close, rest);
    RunStops(body, close + rest, stops);
  }

  lemma Reassembled(s: string, open: string, t: string, n: nat, close: string, rest: string)
    requires open <= s && t == s[|open|..] && n <= |t| && close <= t[n..] && rest == t[n..][|close|..]
    ensures s == open + t[..n] + close + rest
  {
    assert t[n..] == close + rest;
    assert t == t[..n] + t[n..];
    assert s == open + t;
    Assoc(open, t[..n], close + rest);
    Assoc(open + t[..n], close, rest);
  }

  /** A code span: anything but backquotes between two of them. */
  lemma CodeIff(s: string, body: string, rest: string)
    ensures
      CodeAt(s) == Some(Cut(body, rest)) <==> s == "`" + body + "`" + rest && body != "" && Without(body, "`")
  {
    DelimitedIff(s, "`", "`", "`", body, rest);
  }

  /** Bold: anything but stars between two pairs of them. */
  predicate IsBold(s: string, body: string, rest: string) {
    s == "**" + body + "**" + rest && body != "" && Without(body, "*")
  }

  /** Emphasis: anything but stars between two of them that neither starts nor ends with white space. */
  predicate IsEmphasis(s: string, body: string, rest: string) {
    && s == "*" + body + "*" + rest && body != "" && Without(body, "*")
    && body[0] !in "\t\n\U{0C}\r " && body[|body| - 1] !in "\t\n\U{0C}\r "
  }

  /** A link: a caption without brackets, in brackets; and a target without parentheses and space, in parentheses. */
  predicate IsLink(s: string, caption: string, target: string, rest: string) {
    && s == "[" + caption + "](" + target + ")" + rest
    && caption != "" && Without(caption, "[]") && target != "" && Without(target, "()\t\n\U{0C}\r ")
  }

  lemma BoldIff(s: string, hit: Hit<char>)
    ensures
      BoldAt(PLAIN, s) == Some(hit)
      <==> exists body :: IsBold(s, body, hit.rest) && hit.replacement == "<strong>" + body + "</strong>"
  {
    forall body, rest
      ensures Delimited(PLAIN, s, "**", "*", "**") == Some(Cut(body, rest)) <==> IsBold(s, body, rest)
    {
      DelimitedIff(s, "**", "*", "**", body, rest);
    }
    var cut := Delimited(PLAIN, s, "**", "*", "**");
    if cut.Some? {
      assert IsBold(s, cut.value.body, cut.value.rest);
      WrappedIs("<strong>", cut.value.body, "</strong>");
    }
  }

  lemma WrappedIs(open: string, body: string, close: string)
    ensures Wrapped(PLAIN, open, body, close) == open + body + close
  {
    SpelledWritten(open);
    SpelledWritten(close);
  }

  lemma EmphasisIff(s: string, hit: Hit<char>)
    ensures
      EmphasisAt(PLAIN, s) == Some(hit)
      <==> exists body :: IsEmphasis(s, body, hit.rest) && hit.replacement == "<em>" + body + "</em>"
  {
    forall body, rest
      ensures
        Delimited(PLAIN, s, "*", "*", "*") == Some(Cut(body, rest))
        <==> s == "*" + body + "*" + rest && body != "" && Without(body, "*")
    {
      DelimitedIff(s, "*", "*", "*", body, rest);
    }
    var cut := Delimited(PLAIN, s, "*", "*", "*");
    if cut.Some? {
      EmphasisBody(s, cut.value.body, cut.value.rest);
      WrappedIs("<em>", cut.value.body, "</em>");
    }
  }

  lemma EmphasisBody(s: string, body: string, rest: string)
    requires s == "*" + body + "*" + rest && body != "" && Without(body, "*")
    ensures IsEmphasis(s, body, rest) <==> !SpaceAtEnd(PLAIN, body)
  {
  }

  predicate StartsLike(s: string, prefix: string) {
    |prefix| <= |s| && forall k :: 0 <= k < |prefix| ==> Lower(s[k]) == prefix[k]
  }

  /** A target that names a known scheme, in any case, or whose first colon, if any, stands behind a slash. */
  predicate IsSafe(target: string) {
    || StartsLike(target, "http://") || StartsLike(target, "https://") || StartsLike(target, "mailto:")
    || forall k :: 0 <= k < |target| && target[k] == ':' ==> exists j :: 0 <= j < k && target[j] == '/'
  }

  lemma {:induction false} StartsIff(s: string, prefix: string)
    ensures StartsLower(PLAIN, s, prefix) <==> StartsLike(s, prefix)
    decreases |prefix|
  {
    if prefix != "" && s != "" {
      StartsIff(s[1..], prefix[1..]);
      assert StartsLike(s, prefix) <==> Lower(s[0]) == prefix[0] && StartsLike(s[1..], prefix[1..]) by {
        if StartsLike(s, prefix) {
          assert forall k :: 0 <= k < |prefix| - 1 ==> Lower(s[1..][k]) == prefix[k + 1];
        }
        if Lower(s[0]) == prefix[0] && StartsLike(s[1..], prefix[1..]) {
          assert forall k :: 0 < k < |prefix| ==> s[k] == s[1..][k - 1] && prefix[k] == prefix[1..][k - 1];
        }
      }
    }
  }

  lemma SafeIff(target: string)
    ensures SafeLinkTarget(PLAIN, target) <==> IsSafe(target)
  {
    StartsIff(target, "http://");
    StartsIff(target, "https://");
    StartsIff(target, "mailto:");
    RunWithout(target, ":");
    RunWithout(target, "/");
    var colon, slash := Run(PLAIN, target, ":"), Run(PLAIN, target, "/");
    if colon < |target| {
      assert target[colon] == ':';
      if slash < colon {
        assert target[slash] == '/';
      }
    }
  }

  /** An anchor when the target is safe, and otherwise the text as it was. */
  function LinkText(caption: string, target: string): string {
    if IsSafe(target) then "<a href=\"" + target + "\">" + caption + "</a>" else "[" + caption + "](" + target + ")"
  }

  lemma LinkedIs(caption: string, target: string)
    ensures Linked(PLAIN, caption, target) == LinkText(caption, target)
  {
    SafeIff(target);
    FramedIs("<a href=\"", target, "\">", caption, "</a>");
    FramedIs("[", caption, "](", target, ")");
  }

  lemma FramedIs(p: string, x: string, q: string, y: string, r: string)
    ensures Framed(PLAIN, p, x, q, y, r) == p + x + q + y + r
  {
    WrappedIs(p, x, q);
    SpelledWritten(r);
  }

  /** A link in two parts, as the two halves of the pattern see it. */
  lemma LinkHalves(
    open: string, caption: string, mid1: string, mid2: string, target: string, close: string, rest: string)
    ensures
      open + caption + (mid1 + mid2) + target + close + rest == open + caption + mid1 + (mid2 + target + close + rest)
  {
    Assoc(open + caption, mid1, mid2);
    Assoc(open + caption + mid1, mid2, target);
    Assoc(open + caption + mid1, mid2 + target, close);
    Assoc(open + caption + mid1, mid2 + target + close, rest);
  }

  predicate IsTarget(s: string, target: string, rest: string) {
    s == "(" + target + ")" + rest && target != "" && Without(target, "()\t\n\U{0C}\r ")
  }

  lemma TargetIff(s: string, target: string, rest: string)
    ensures Delimited(PLAIN, s, "(", "()" + SPACE, ")") == Some(Cut(target, rest)) <==> IsTarget(s, target, rest)
  {
    assert "()" + SPACE == "()\t\n\U{0C}\r ";
    DelimitedIff(s, "(", "()" + SPACE, ")", target, rest);
  }

  /** A link is its two halves. */
  lemma LinkJoined(caption: string, target: string, rest: string, half: string)
    requires half == "(" + target + ")" + rest
    ensures "[" + caption + "](" + target + ")" + rest == "[" + caption + "]" + half
  {
    assert "](" == "]" + "(";
    LinkHalves("[", caption, "]", "(", target, ")", rest);
  }

  lemma LinkFound(s: string, caption: string, target: string, rest: string)
    requires IsLink(s, caption, target, rest)
    ensures LinkAt(PLAIN, s) == Some(Hit(LinkText(caption, target), rest))
  {
    var half := "(" + target + ")" + rest;
    LinkJoined(caption, target, rest, half);
    DelimitedIff(s, "[", "[]", "]", caption, half);
    TargetIff(half, target, rest);
    LinkedIs(caption, target);
  }

  lemma LinkOnly(s: string, hit: Hit<char>) returns (caption: string, target: string)
    requires LinkAt(PLAIN, s) == Some(hit)
    ensures IsLink(s, caption, target, hit.rest) && hit.replacement == LinkText(caption, target)
  {
    var cut := Delimited(PLAIN, s, "[", "[]", "]").value;
    var more := Delimited(PLAIN, cut.rest, "(", "()" + SPACE, ")").value;
    caption, target := cut.body, more.body;
    LinkedIs(caption, target);
    LinkSpelledOut(s, caption, cut.rest, target, more.rest);
  }

  lemma LinkSpelledOut(s: string, caption: string, half: string, target: string, rest: string)
    requires Delimited(PLAIN, s, "[", "[]", "]") == Some(Cut(caption, half))
    requires Delimited(PLAIN, half, "(", "()" + SPACE, ")") == Some(Cut(target, rest))
    ensures IsLink(s, caption, target, rest)
  {
    DelimitedIff(s, "[", "[]", "]", caption, half);
    TargetIff(half, target, rest);
    LinkJoined(caption, target, rest, half);
  }

  /** A link becomes an anchor when its target is safe, and stays what it is otherwise. */
  lemma LinkIff(s: string, hit: Hit<char>)
    ensures
      LinkAt(PLAIN, s) == Some(hit)
      <==> exists caption, target ::
             IsLink(s, caption, target, hit.rest) && hit.replacement == LinkText(caption, target)
  {
    if LinkAt(PLAIN, s) == Some(hit) {
      var caption, target := LinkOnly(s, hit);
    }
    forall caption, target | IsLink(s, caption, target, hit.rest) && hit.replacement == LinkText(caption, target)
      ensures LinkAt(PLAIN, s) == Some(hit)
    {
      LinkFound(s, caption, target, hit.rest);
    }
  }

  // ----- where the rules apply -----

  /** No hit starts inside the front. */
  ghost predicate NoHitIn<A(!new)>(find: Finder<A>, front: seq<A>, rest: seq<A>) {
    forall k :: 0 <= k < |front| ==> find(front[k..] + rest) == None
  }

  /** What is in front of the first hit stays, the hit is replaced, and the rules go on behind it. */
  lemma {:induction false} FirstHitReplaced<A(!new)>(find: Finder<A>, front: seq<A>, s: seq<A>)
    requires NoHitIn(find, front, s)
    ensures ReplaceAll(find, front + s) == front + ReplaceAll(find, s)
    ensures
      s != [] && find(s).Some? && |find(s).value.rest| < |s| ==>
        ReplaceAll(find, front + s) == front + (find(s).value.replacement + ReplaceAll(find, find(s).value.rest))
    decreases |front|
  {
    if front == [] {
      assert front + s == s;
    } else {
      var t := front[1..];
      assert (front + s)[1..] == t + s && front[0..] == front;
      forall k | 0 <= k < |t| ensures find(t[k..] + s) == None {
        assert t[k..] == front[k + 1..];
      }
      assert find(front[0..] + s) == None;
      FirstHitReplaced(find, t, s);
      Assoc([front[0]], t, ReplaceAll(find, s));
    }
  }

  /** A text in which nothing matches is only escaped: it shows no markup. */
  lemma NothingMatches(s: string)
    requires forall k :: 0 <= k < |Escape(s)| ==> CodeAt(Escape(s)[k..]) == None
    requires forall rule, k :: 0 <= k < |Escape(s)| ==> HitAt(rule, PLAIN, Escape(s)[k..]) == None
    ensures Inlined(s) == Escape(s) && Harmless(Inlined(s))
  {
    EscapeShows(s);
    var esc := Escape(s);
    NoCode(esc, 0, 0);
    assert esc[0..] == esc;
    NoRule(Link, esc);
    NoRule(Bold, esc);
    NoRule(Emphasis, esc);
  }

  lemma {:induction false} NoCode(esc: string, i: nat, n: nat)
    requires i <= |esc| && forall k :: i <= k < |esc| ==> CodeAt(esc[k..]) == None
    ensures Spelled(Extracted(esc[i..], n)) == esc[i..] && CodeSpans(esc[i..]) == []
    decreases |esc| - i
  {
    if i < |esc| {
      assert esc[i..][1..] == esc[i + 1..] && esc[i..][0] == esc[i];
      NoCode(esc, i + 1, n);
      var more := Extracted(esc[i + 1..], n);
      assert Extracted(esc[i..], n) == [Ch(esc[i])] + more;
      assert ([Ch(esc[i])] + more)[1..] == more;
      assert esc[i..] == [esc[i]] + esc[i + 1..];
    }
  }

  lemma NoRule(rule: Rule, esc: string)
    requires forall k :: 0 <= k < |esc| ==> HitAt(rule, PLAIN, esc[k..]) == None
    ensures Replaced(rule, PLAIN, esc) == esc
  {
    var find := (t: string) => HitAt(rule, PLAIN, t);
    forall k | 0 <= k < |esc| ensures find(esc[k..] + []) == None {
      assert esc[k..] + [] == esc[k..];
    }
    FirstHitReplaced(find, esc, []);
    assert esc + [] == esc;
  }
}
