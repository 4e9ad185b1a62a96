/** Markup in rendered text comes from the rules only: every '<' starts one of the renderer's tags. */
module InlineTags {
  import opened Text
  import opened InlineRules
  import opened InlineRestore
  import opened Inline
  import opened InlineSpec
  import opened InlineShown

  // ----- tags in a text -----

  /** What the inline rules and code spans write. */
  predicate IsInlineTag(t: string) {
    || t == "<a href=\"" || t == "</a>" || t == "<strong>" || t == "</strong>" || t == "<em>" || t == "</em>"
    || t == "<code>" || t == "</code>"
  }

  /** What blocks write. */
  predicate IsBlockTag(t: string) {
    || t == "<pre>" || t == "</pre>" || t == "<code>" || t == "</code>" || t == "<ul>" || t == "</ul>" || t == "<ol>"
    || t == "<ol start=\"" || t == "</ol>" || t == "<li>" || t == "</li>" || t == "<blockquote>"
    || t == "</blockquote>" || t == "<p>" || t == "</p>" || t == "<hr>" || IsHeadingTag(t)
  }

  predicate IsHeadingTag(t: string) {
    || (|t| == 4 && t[0] == '<' && t[1] == 'h' && '1' <= t[2] <= '6' && t[3] == '>')
    || (|t| == 5 && t[0] == '<' && t[1] == '/' && t[2] == 'h' && '1' <= t[3] <= '6' && t[4] == '>')
  }

  /** A tag opens in front, and there only; no rule but that for links looks for a character in it. */
  predicate TagLike(t: string) {
    && t != "" && t[0] == '<' && (forall k :: 0 < k < |t| ==> t[k] != '<')
    && '*' !in t && NUL !in t
  }

  ghost predicate StartsTag(s: string) {
    exists t :: (IsInlineTag(t) || IsBlockTag(t)) && t <= s
  }

  /** Every '<' of the text starts a tag. */
  ghost predicate TagsOnly(s: string) {
    forall k :: 0 <= k < |s| && s[k] == '<' ==> StartsTag(s[k..])
  }

  lemma InlineTagLike(t: string)
    requires IsInlineTag(t)
    ensures TagLike(t)
  {
  }

  lemma HeadingTagLike(t: string)
    requires IsHeadingTag(t)
    ensures TagLike(t)
  {
  }

  lemma BlockTagLike(t: string)
    requires IsBlockTag(t)
    ensures TagLike(t)
  {
    if IsHeadingTag(t) {
      HeadingTagLike(t);
    }
  }

  lemma TextOnly(s: string)
    requires '<' !in s
    ensures TagsOnly(s)
  {
  }

  lemma TagAlone(t: string)
    requires IsInlineTag(t) || IsBlockTag(t)
    ensures TagsOnly(t) && TagLike(t)
  {
    if IsInlineTag(t) {
      InlineTagLike(t);
    } else {
      BlockTagLike(t);
    }
    assert t[0..] == t && t <= t;
    assert StartsTag(t);
  }

  lemma StartsStays(a: string, b: string)
    requires StartsTag(a) && a <= b
    ensures StartsTag(b)
  {
    var t :| (IsInlineTag(t) || IsBlockTag(t)) && t <= a;
    assert t <= b;
  }

  lemma Together(a: string, b: string)
    requires TagsOnly(a) && TagsOnly(b)
    ensures TagsOnly(a + b)
  {
    var s := a + b;
    forall k | 0 <= k < |s| && s[k] == '<' ensures StartsTag(s[k..]) {
      if k < |a| {
        assert s[k..] == a[k..] + b;
        StartsStays(a[k..], s[k..]);
      } else {
        assert s[k..] == b[k - |a|..];
      }
    }
  }

  lemma Back(s: string, n: nat)
    requires TagsOnly(s) && n <= |s|
    ensures TagsOnly(s[n..])
  {
    forall k | 0 <= k < |s[n..]| && s[n..][k] == '<' ensures StartsTag(s[n..][k..]) {
      assert s[n..][k..] == s[n + k..];
    }
  }

  lemma InPrefix(t: string, s: string, k: nat, n: nat)
    requires k <= n < |s| && t <= s[k..]
    ensures n - k < |t| ==> s[n] in t
  {
    if n - k < |t| {
      assert t[n - k] == s[k..][n - k];
    }
  }

  /** A text cut at a character that stands in no tag. */
  lemma Front(s: string, n: nat)
    requires TagsOnly(s) && n <= |s| && (n < |s| ==> s[n] == '*' || s[n] == NUL)
    ensures TagsOnly(s[..n])
  {
    forall k | 0 <= k < n && s[k] == '<' ensures StartsTag(s[..n][k..]) {
      var t :| (IsInlineTag(t) || IsBlockTag(t)) && t <= s[k..];
      TagAlone(t);
      if n < |s| {
        InPrefix(t, s, k, n);
      }
      assert t <= s[..n][k..];
    }
  }

  lemma Tagged(open: string, body: string, close: string)
    requires IsInlineTag(open) && IsInlineTag(close) && TagsOnly(body)
    ensures TagsOnly(open + body + close)
  {
    TagAlone(open);
    TagAlone(close);
    Together(open, body);
    Together(open + body, close);
  }

  // ----- the rules -----

  lemma LinkTextTags(caption: string, target: string)
    requires '<' !in caption && '<' !in target
    ensures TagsOnly(LinkText(caption, target))
  {
    TextOnly(target + "\">" + caption);
    Tagged("<a href=\"", target + "\">" + caption, "</a>");
    Assoc("<a href=\"", target, "\">");
    Assoc("<a href=\"", target + "\">", caption);
    TextOnly("[" + caption + "](" + target + ")");
  }

  /** Links are made of text without any tag. */
  lemma {:induction false} LinksTagged(find: Finder<char>, s: string)
    requires '<' !in s && find == ((t: string) => HitAt(Link, PLAIN, t))
    ensures TagsOnly(ReplaceAll(find, s))
    decreases |s|
  {
    if s != "" {
      match find(s) {
        case Some(hit) =>
          assert LinkAt(PLAIN, s) == Some(hit);
          var caption, target := LinkOnly(s, hit);
          LinkParts(s, caption, target, hit.rest);
          LinkTextTags(caption, target);
          LinksTagged(find, hit.rest);
          Together(hit.replacement, ReplaceAll(find, hit.rest));
        case None =>
          assert '<' !in s[1..];
          LinksTagged(find, s[1..]);
          TextOnly([s[0]]);
          Together([s[0]], ReplaceAll(find, s[1..]));
      }
    }
  }

  lemma LinkParts(s: string, caption: string, target: string, rest: string)
    requires IsLink(s, caption, target, rest) && '<' !in s
    ensures '<' !in caption && '<' !in target && '<' !in rest
  {
    assert forall c :: c in caption || c in target || c in rest ==> c in s;
  }

  lemma Between(s: string, open: string, body: string, close: string, rest: string)
    requires s == open + body + close + rest && TagsOnly(s) && close != "" && close[0] == '*'
    ensures TagsOnly(body) && TagsOnly(rest)
  {
    var n := |open| + |body|;
    assert s[|open|..] == body + (close + rest) && s[n + |close|..] == rest;
    Back(s, |open|);
    Back(s, n + |close|);
    var t := s[|open|..];
    assert t[..|body|] == body && t[|body|] == close[0];
    Front(t, |body|);
  }

  lemma StarHitTags(rule: Rule, s: string, hit: Hit<char>)
    requires !rule.Link? && HitAt(rule, PLAIN, s) == Some(hit) && TagsOnly(s)
    ensures TagsOnly(hit.replacement) && TagsOnly(hit.rest)
  {
    if rule.Bold? {
      BoldIff(s, hit);
      var body :| IsBold(s, body, hit.rest) && hit.replacement == "<strong>" + body + "</strong>";
      Between(s, "**", body, "**", hit.rest);
      Tagged("<strong>", body, "</strong>");
    } else {
      EmphasisIff(s, hit);
      var body :| IsEmphasis(s, body, hit.rest) && hit.replacement == "<em>" + body + "</em>";
      Between(s, "*", body, "*", hit.rest);
      Tagged("<em>", body, "</em>");
    }
  }

  /** Bold and emphasis leave the tags that they find alone. */
  lemma {:induction false} StarsTagged(rule: Rule, find: Finder<char>, s: string)
    requires !rule.Link? && TagsOnly(s) && find == ((t: string) => HitAt(rule, PLAIN, t))
    ensures TagsOnly(ReplaceAll(find, s))
    decreases |s|
  {
    if s != "" {
      if find(s).Some? {
        var hit := find(s).value;
        StarHitTags(rule, s, hit);
        StarsTagged(rule, find, hit.rest);
        Together(hit.replacement, ReplaceAll(find, hit.rest));
      } else if s[0] == '<' {
        assert s[0..] == s && StartsTag(s[0..]);
        var t :| (IsInlineTag(t) || IsBlockTag(t)) && t <= s;
        TagAlone(t);
        var rest := s[|t|..];
        assert s == t + rest;
        NoHitInText(rule, t, rest);
        FirstHitReplaced(find, t, rest);
        Back(s, |t|);
        StarsTagged(rule, find, rest);
        Together(t, ReplaceAll(find, rest));
      } else {
        Back(s, 1);
        StarsTagged(rule, find, s[1..]);
        TextOnly([s[0]]);
        Together([s[0]], ReplaceAll(find, s[1..]));
      }
    }
  }

  lemma StyledTagged(s: string)
    requires '<' !in s
    ensures TagsOnly(Styled(PLAIN, s))
  {
    LinksTagged((t: string) => HitAt(Link, PLAIN, t), s);
    var linked := Replaced(Link, PLAIN, s);
    StarsTagged(Bold, (t: string) => HitAt(Bold, PLAIN, t), linked);
    StarsTagged(Emphasis, (t: string) => HitAt(Emphasis, PLAIN, t), Replaced(Bold, PLAIN, linked));
  }

  // ----- code spans -----

  /** r is s with another text in place of what stands at k. */
  predicate PutAt(s: string, what: string, put: string, k: int, r: string) {
    0 <= k <= |s| && what <= s[k..] && r == s[..k] + (put + s[k..][|what|..])
  }

  lemma {:induction false} ReplacedOnce(s: string, what: string, put: string)
    ensures
      var r := ReplaceFirst(s, what, put);
      r == s || exists k :: PutAt(s, what, put, k, r)
  {
    var r := ReplaceFirst(s, what, put);
    if what <= s {
      assert s[0..] == s && s[..0] + r == r;
      assert PutAt(s, what, put, 0, r);
    } else if s != "" {
      var t, q := s[1..], ReplaceFirst(s[1..], what, put);
      ReplacedOnce(t, what, put);
      if q == t {
        assert [s[0]] + t == s;
      } else {
        var k :| PutAt(t, what, put, k, q);
        PutLater(s, what, put, k, q);
      }
    }
  }

  lemma PutLater(s: string, what: string, put: string, k: int, q: string)
    requires s != "" && PutAt(s[1..], what, put, k, q)
    ensures PutAt(s, what, put, k + 1, [s[0]] + q)
  {
    var t := s[1..];
    assert s[k + 1..] == t[k..] && s[..k + 1] == [s[0]] + t[..k];
    Assoc([s[0]], t[..k], put + t[k..][|what|..]);
  }

  lemma PutBackTagged(s: string, k: nat, span: string)
    requires TagsOnly(s) && TagsOnly(span)
    ensures TagsOnly(ReplaceFirst(s, Placeholder(k), span))
  {
    var what := Placeholder(k);
    var r := ReplaceFirst(s, what, span);
    ReplacedOnce(s, what, span);
    if r != s {
      var n :| PutAt(s, what, span, n, r);
      assert what[0] == NUL;
      PutTagged(s, what, span, n, r);
    }
  }

  lemma PutTagged(s: string, what: string, span: string, n: nat, r: string)
    requires TagsOnly(s) && TagsOnly(span) && PutAt(s, what, span, n, r) && what != "" && what[0] == NUL
    ensures TagsOnly(r)
  {
    assert s[n] == s[n..][0];
    Front(s, n);
    Back(s, n);
    Back(s[n..], |what|);
    Together(span, s[n..][|what|..]);
    Together(s[..n], span + s[n..][|what|..]);
  }

  ghost predicate SpansTagged(spans: seq<string>) {
    forall k :: 0 <= k < |spans| ==> TagsOnly(spans[k])
  }

  lemma {:induction false} RestoredTagged(s: string, spans: seq<string>, i: nat)
    requires TagsOnly(s) && SpansTagged(spans)
    ensures TagsOnly(Restored(s, spans, i))
    decreases |spans| - i
  {
    if i < |spans| {
      PutBackTagged(s, i, spans[i]);
      RestoredTagged(ReplaceFirst(s, Placeholder(i), spans[i]), spans, i + 1);
    }
  }

  lemma CodeParts(s: string, body: string, rest: string)
    requires s == "`" + body + "`" + rest && '<' !in s
    ensures '<' !in body && '<' !in rest
  {
    assert forall c :: c in body || c in rest ==> c in s;
  }

  lemma FirstTagged(span: string, spans: seq<string>)
    requires TagsOnly(span) && SpansTagged(spans)
    ensures SpansTagged([span] + spans)
  {
  }

  lemma {:induction false} CodeSpansTagged(s: string)
    requires '<' !in s
    ensures SpansTagged(CodeSpans(s))
    decreases |s|
  {
    if s != "" {
      match CodeAt(s) {
        case Some(cut) =>
          CodeIff(s, cut.body, cut.rest);
          CodeParts(s, cut.body, cut.rest);
          TextOnly(cut.body);
          Tagged("<code>", cut.body, "</code>");
          CodeSpansTagged(cut.rest);
          FirstTagged(CodeSpan(cut.body), CodeSpans(cut.rest));
        case None =>
          assert '<' !in s[1..];
          CodeSpansTagged(s[1..]);
      }
    }
  }

  lemma PlaceholderHasNoTag(k: nat)
    ensures '<' !in Placeholder(k)
  {
    assert forall i :: 0 <= i < |Decimal(k)| ==> IsDigit(Decimal(k)[i]);
  }

  lemma {:induction false} ExtractedHasNoTag(s: string, k: nat)
    requires '<' !in s
    ensures '<' !in Spelled(Extracted(s, k))
    decreases |s|
  {
    if s != "" {
      match CodeAt(s) {
        case Some(cut) =>
          CodeIff(s, cut.body, cut.rest);
          assert forall c :: c in cut.rest ==> c in s;
          ExtractedHasNoTag(cut.rest, k + 1);
          PlaceholderHasNoTag(k);
          OneMoreSpan(k, Extracted(cut.rest, k + 1));
        case None =>
          assert '<' !in s[1..];
          ExtractedHasNoTag(s[1..], k);
          OneMoreChar(s[0], Extracted(s[1..], k));
      }
    }
  }

  /** Whatever the text, each '<' that it renders to starts a tag; the text itself shows none. */
  lemma InlinedTagged(s: string)
    ensures TagsOnly(Inlined(s)) && Harmless(Escape(s))
  {
    EscapeShows(s);
    var esc := Escape(s);
    assert '<' !in esc;
    ExtractedHasNoTag(esc, 0);
    StyledTagged(Spelled(Extracted(esc, 0)));
    CodeSpansTagged(esc);
    RestoredTagged(Styled(PLAIN, Spelled(Extracted(esc, 0))), CodeSpans(esc), 0);
  }
}
