/** Blocks as their text says them: which lines start what, how far a block reaches, and what it is printed as. */
module MarkdownSpec {
  import opened Text
  import opened Markdown
  import opened MarkdownPage
  import I = InlineRules
  import Inline

  // ----- one line -----

  predicate AllAre(s: string, c: char) {
    forall k :: 0 <= k < |s| ==> s[k] == c
  }

  lemma {:induction false} HashesIs(s: string, n: nat)
    ensures Hashes(s) == n <==> n <= |s| && AllAre(s[..n], '#') && (n < |s| ==> s[n] != '#')
  {
    if s != "" && s[0] == '#' && n > 0 && n <= |s| {
      HashesIs(s[1..], n - 1);
      assert s[..n] == [s[0]] + s[1..][..n - 1];
      assert forall k :: 0 <= k < n ==> s[..n][k] == if k == 0 then s[0] else s[1..][..n - 1][k - 1];
      var front := s[1..][..n - 1];
      assert forall k :: 0 <= k < |front| ==> front[k] == s[..n][k + 1];
    } else if s != "" && n > 0 && n <= |s| {
      assert s[..n][0] == s[0];
    }
  }

  /** A heading: one to six hashes and a space. */
  lemma HeadingIff(s: string, n: nat)
    requires n > 0
    ensures HeadingLevel(s) == n <==> n <= 6 && n < |s| && AllAre(s[..n], '#') && s[n] == ' '
  {
    HashesIs(s, n);
  }

  /** A rule: three or more of one of three characters, and nothing else. */
  lemma RuleIff(s: string)
    ensures IsRule(s) <==> |s| >= 3 && (AllAre(s, '-') || AllAre(s, '*') || AllAre(s, '_'))
  {
  }

  /** A bullet: a dash, star or plus, a space, and text that is not blank. */
  lemma BulletIff(s: string, text: string)
    requires text != ""
    ensures BulletText(s) == text <==> ("- " <= s || "* " <= s || "+ " <= s) && Trim(s[2..]) == text
  {
  }

  lemma {:induction false} DigitsAre(s: string, n: nat)
    ensures DigitsOf(s) == n <==> n <= |s| && AllDigits(s[..n]) && (n < |s| ==> !IsDigit(s[n]))
  {
    if s != "" && IsDigit(s[0]) && n > 0 && n <= |s| {
      DigitsAre(s[1..], n - 1);
      assert s[..n] == [s[0]] + s[1..][..n - 1];
      assert forall k :: 0 <= k < n ==> s[..n][k] == if k == 0 then s[0] else s[1..][..n - 1][k - 1];
      var front := s[1..][..n - 1];
      assert forall k :: 0 <= k < |front| ==> front[k] == s[..n][k + 1];
    } else if s != "" && n > 0 && n <= |s| {
      assert s[..n][0] == s[0];
    }
  }

  lemma {:induction false} SpacesTrimmed(s: string)
    ensures TrimLeft(s) == TrimLeft(s[SpacesOf(s)..])
  {
    if s != "" && s[0] == ' ' {
      SpacesTrimmed(s[1..]);
      assert s[SpacesOf(s)..] == s[1..][SpacesOf(s[1..])..];
    } else {
      assert s[0..] == s;
    }
  }

  /** A numbered item: one to nine digits, a period or parenthesis, a space, and text that is not blank. */
  predicate IsNumbered(s: string, n: int, text: string) {
    && 1 <= n <= 9 && n + 1 < |s| && AllDigits(s[..n]) && (s[n] == '.' || s[n] == ')') && s[n + 1] == ' '
    && Trim(s[n + 1..]) == text
  }

  lemma NumberedIff(s: string, text: string)
    requires text != ""
    ensures OrderedText(s) == text <==> exists n :: IsNumbered(s, n, text)
    ensures forall n :: IsNumbered(s, n, text) ==> OrderedStart(s) == s[..n]
  {
    var d := DigitsOf(s);
    forall n | IsNumbered(s, n, text) ensures d == n {
      DigitsAre(s, n);
    }
    DigitsAre(s, d);
    if d < |s| {
      var rest := s[d + 1..];
      SpacesTrimmed(rest);
      assert rest[SpacesOf(rest)..] == s[d + 1 + SpacesOf(rest)..];
      assert rest != "" ==> rest[0] == s[d + 1];
      if OrderedText(s) == text {
        assert IsNumbered(s, d, text);
      }
    }
  }

  /** What a trimmed line starts, with every kind taking precedence over those behind it. */
  lemma KindIs(s: string)
    ensures KindOf(s).Blank? <==> s == ""
    ensures KindOf(s).Fence? <==> "```" <= s
    ensures KindOf(s).Heading? <==> HeadingLevel(s) > 0
    ensures KindOf(s).Rule? <==> IsRule(s)
    ensures KindOf(s).Bullet? <==> BulletText(s) != "" && !IsRule(s)
    ensures KindOf(s).Number? <==> OrderedText(s) != ""
    ensures KindOf(s).Quote? <==> ">" <= s
    ensures
      KindOf(s).Plain?
      <==> s != "" && !("```" <= s) && HeadingLevel(s) == 0 && !IsRule(s) && BulletText(s) == "" && OrderedText(s) == ""
           && !(">" <= s)
  {
    NothingIsNoItem();
    FirstCharacters(s);
  }

  /** The kinds start with different characters, but for rules and bullets. */
  lemma FirstCharacters(s: string)
    ensures "```" <= s ==> s[0] == '`'
    ensures HeadingLevel(s) > 0 ==> s != "" && s[0] == '#'
    ensures OrderedText(s) != "" ==> s != "" && IsDigit(s[0])
    ensures ">" <= s ==> s[0] == '>'
  {
  }

  // ----- how far a block reaches -----

  /** A fenced block ends with the first fence line behind its first line, or with the document. */
  lemma FenceExtent(lines: seq<string>, i: nat, j: nat)
    requires i < j <= |lines| && LineKind(lines[i]).Fence?
    ensures
      IsBlock(lines, i, j)
      <==> && (forall k :: i < k < j - 1 ==> !IsFence(lines[k]))
           && (j < |lines| ==> j > i + 1 && IsFence(lines[j - 1]))
  {
    if IsBlock(lines, i, j) {
      forall k | i < k < j - 1 ensures !IsFence(lines[k]) {
        assert Continues(lines, i, k + 1);
      }
    }
    if forall k :: i < k < j - 1 ==> !IsFence(lines[k]) {
      forall k | i < k < j ensures Continues(lines, i, k) {
        assert k > i + 1 ==> !IsFence(lines[k - 1]);
      }
    }
  }

  /** A quote takes all lines that start with its mark. */
  lemma QuoteExtent(lines: seq<string>, i: nat, j: nat)
    requires i < j <= |lines| && LineKind(lines[i]).Quote?
    ensures
      IsBlock(lines, i, j)
      <==> (forall k :: i <= k < j ==> ">" <= Trim(lines[k])) && (j < |lines| ==> !(">" <= Trim(lines[j])))
  {
    KindIs(Trim(lines[i]));
    forall k | i < k < |lines| ensures Continues(lines, i, k) <==> ">" <= Trim(lines[k]) {
    }
  }

  /** A paragraph takes all lines that start nothing else. */
  lemma ParagraphExtent(lines: seq<string>, i: nat, j: nat)
    requires i < j <= |lines| && LineKind(lines[i]).Plain?
    ensures
      IsBlock(lines, i, j)
      <==> (forall k :: i <= k < j ==> LineKind(lines[k]).Plain?) && (j < |lines| ==> !LineKind(lines[j]).Plain?)
  {
    forall k | i < k < |lines| ensures Continues(lines, i, k) <==> LineKind(lines[k]).Plain? {
    }
  }

  /** Headings, rules and blank lines are blocks of one line. */
  lemma OneLineExtent(lines: seq<string>, i: nat, j: nat)
    requires i < j <= |lines|
    requires LineKind(lines[i]).Heading? || LineKind(lines[i]).Rule? || LineKind(lines[i]).Blank?
    ensures IsBlock(lines, i, j) <==> j == i + 1
  {
    assert i + 1 < |lines| ==> !Continues(lines, i, i + 1);
  }

  /** Behind k there are only blank lines up to an item. */
  ghost predicate ItemBehind(itemText: string -> string, lines: seq<string>, k: nat) {
    exists m ::
      && k <= m < |lines| && itemText(Trim(lines[m])) != "" && Trim(lines[m]) != ""
      && forall n :: k <= n < m ==> Trim(lines[n]) == ""
  }

  lemma {:induction false} NextIff(itemText: string -> string, lines: seq<string>, k: nat)
    ensures NextIsItem(itemText, lines, k) <==> ItemBehind(itemText, lines, k)
    decreases |lines| - k
  {
    if k < |lines| && Trim(lines[k]) == "" {
      NextIff(itemText, lines, k + 1);
      if ItemBehind(itemText, lines, k + 1) {
        var m :|
          && k + 1 <= m < |lines| && itemText(Trim(lines[m])) != "" && Trim(lines[m]) != ""
          && forall n :: k + 1 <= n < m ==> Trim(lines[n]) == "";
        assert forall n :: k <= n < m ==> Trim(lines[n]) == "";
      }
    }
  }

  /** A line of a list: an item, a blank line with another item behind it, or text that is indented. */
  ghost predicate StaysInList(itemText: string -> string, lines: seq<string>, k: nat)
    requires k < |lines|
  {
    || itemText(Trim(lines[k])) != ""
    || (Trim(lines[k]) == "" && ItemBehind(itemText, lines, k + 1))
    || (Trim(lines[k]) != "" && "  " <= lines[k])
  }

  lemma StaysIff(itemText: string -> string, lines: seq<string>, k: nat)
    requires k < |lines|
    ensures InList(itemText, lines, k) <==> StaysInList(itemText, lines, k)
  {
    NextIff(itemText, lines, k + 1);
  }

  /** A list takes all lines that stay in it. */
  lemma ListExtent(lines: seq<string>, i: nat, j: nat, itemText: string -> string)
    requires i < j <= |lines|
    requires
      || (LineKind(lines[i]).Bullet? && itemText == BulletText)
      || (LineKind(lines[i]).Number? && itemText == OrderedText)
    ensures
      IsBlock(lines, i, j)
      <==> && (forall k :: i < k < j ==> StaysInList(itemText, lines, k))
           && (j < |lines| ==> !StaysInList(itemText, lines, j))
  {
    forall k | i < k < |lines| ensures Continues(lines, i, k) <==> StaysInList(itemText, lines, k) {
      StaysIff(itemText, lines, k);
    }
  }

  // ----- what a block is printed as -----

  lemma {:induction false} HtmlAppend(a: seq<Piece>, b: seq<Piece>)
    ensures HtmlOf(a + b) == HtmlOf(a) + HtmlOf(b)
  {
    if a == [] {
      assert a + b == b;
    } else {
      assert (a + b)[0] == a[0] && (a + b)[1..] == a[1..] + b;
      HtmlAppend(a[1..], b);
      Assoc(Html(a[0]), HtmlOf(a[1..]), HtmlOf(b));
    }
  }

  lemma HtmlOne(a: Piece)
    ensures HtmlOf([a]) == Html(a)
  {
    assert [a][1..] == [] && Html(a) + "" == Html(a);
  }

  lemma HtmlTwo(a: Piece, b: Piece)
    ensures HtmlOf([a, b]) == Html(a) + Html(b)
  {
    HtmlAppend([a], [b]);
    HtmlOne(a);
    HtmlOne(b);
    assert [a] + [b] == [a, b];
  }

  lemma HtmlFour(a: Piece, b: Piece, c: Piece, d: Piece)
    ensures HtmlOf([a, b, c, d]) == Html(a) + Html(b) + Html(c) + Html(d)
  {
    HtmlAppend([a, b], [c, d]);
    HtmlTwo(a, b);
    HtmlTwo(c, d);
    assert [a, b] + [c, d] == [a, b, c, d];
    Assoc(Html(a) + Html(b), Html(c), Html(d));
  }

  lemma HtmlSix(a: Piece, b: Piece, c: Piece, d: Piece, e: Piece, f: Piece)
    ensures HtmlOf([a, b, c, d, e, f]) == Html(a) + Html(b) + Html(c) + Html(d) + Html(e) + Html(f)
  {
    HtmlAppend([a, b, c, d], [e, f]);
    HtmlFour(a, b, c, d);
    HtmlTwo(e, f);
    assert [a, b, c, d] + [e, f] == [a, b, c, d, e, f];
    Assoc(Html(a) + Html(b) + Html(c) + Html(d), Html(e), Html(f));
  }

  lemma HeadingTags(level: nat)
    requires level <= 6
    ensures Html(Open(H(level))) == "<h" + [Digit(level)] + ">" && Html(Close(H(level))) == "</h" + [Digit(level)] + ">"
  {
    assert Decimal(level) == [Digit(level)];
    assert "<" + ("h" + [Digit(level)]) == "<h" + [Digit(level)];
    assert "</" + ("h" + [Digit(level)]) == "</h" + [Digit(level)];
  }

  lemma TagsAre()
    ensures Html(Open(P)) == "<p>" && Html(Close(P)) == "</p>"
    ensures Html(Open(Blockquote)) == "<blockquote>" && Html(Close(Blockquote)) == "</blockquote>"
    ensures Html(Open(Li)) == "<li>" && Html(Close(Li)) == "</li>"
    ensures Html(Hr) == "<hr>" && Html(Break) == "\n"
  {
  }

  lemma CodeTagsAre()
    ensures Html(Open(Pre)) == "<pre>" && Html(Close(Pre)) == "</pre>"
    ensures Html(Open(Code)) == "<code>" && Html(Close(Code)) == "</code>"
  {
  }

  lemma ListTagsAre(start: string)
    ensures Html(Open(Ul)) == "<ul>" && Html(Close(Ul)) == "</ul>"
    ensures Html(Open(Ol(start))) == if start == "" then "<ol>" else "<ol start=\"" + start + "\">"
    ensures Html(Close(Ol(start))) == "</ol>"
  {
  }

  /** A heading prints its text, without the hashes, in a tag with its level. */
  lemma HeadingPrinted(lines: seq<string>, i: nat, j: nat)
    requires IsBlock(lines, i, j) && LineKind(lines[i]).Heading?
    ensures
      var s := Trim(lines[i]);
      var n := [Digit(HeadingLevel(s))];
      HtmlOf(BlockPieces(lines, i, j))
      == "<h" + n + ">" + Inline.Inlined(Trim(s[HeadingLevel(s)..])) + ("</h" + n + ">") + "\n"
  {
    var s := Trim(lines[i]);
    var level, text := HeadingLevel(s), Trim(s[HeadingLevel(s)..]);
    HtmlFour(Open(H(level)), Styled(text), Close(H(level)), Break);
    HeadingTags(level);
  }

  /** A rule is one tag, and blank lines print nothing. */
  lemma RulePrinted(lines: seq<string>, i: nat, j: nat)
    requires IsBlock(lines, i, j)
    ensures LineKind(lines[i]).Rule? ==> HtmlOf(BlockPieces(lines, i, j)) == "<hr>" + "\n"
    ensures LineKind(lines[i]).Blank? ==> HtmlOf(BlockPieces(lines, i, j)) == ""
  {
    HtmlTwo(Hr, Break);
  }

  /** The lines of a paragraph as they are printed, and those of a quote. */
  predicate ParagraphTexts(lines: seq<string>, i: nat, j: nat, texts: seq<string>)
    requires i <= j <= |lines|
  {
    |texts| == j - i && forall k :: 0 <= k < |texts| ==> texts[k] == Trim(lines[i + k])
  }

  predicate QuotedTexts(lines: seq<string>, i: nat, j: nat, texts: seq<string>)
    requires i <= j <= |lines|
  {
    && |texts| == j - i
    && forall k :: 0 <= k < |texts| ==> ">" <= Trim(lines[i + k]) && texts[k] == Trim(Trim(lines[i + k])[1..])
  }

  lemma TrimmedAre(lines: seq<string>, i: nat, j: nat, texts: seq<string>)
    requires i <= j <= |lines| && ParagraphTexts(lines, i, j, texts)
    ensures Trimmed(lines[i..j]) == texts
  {
  }

  lemma QuotesAre(lines: seq<string>, i: nat, j: nat, texts: seq<string>)
    requires i <= j <= |lines| && QuotedTexts(lines, i, j, texts)
    ensures QuoteTexts(lines[i..j]) == texts
  {
  }

  lemma BlockIs(lines: seq<string>, i: nat, j: nat)
    requires IsBlock(lines, i, j)
    ensures LineKind(lines[i]).Plain? ==> BlockPieces(lines, i, j) == ParagraphPieces(lines[i..j])
    ensures LineKind(lines[i]).Quote? ==> BlockPieces(lines, i, j) == QuotePieces(lines[i..j])
  {
  }

  lemma ParagraphHtml(text: string)
    ensures HtmlOf([Open(P), Styled(text), Close(P), Break]) == "<p>" + Inline.Inlined(text) + "</p>" + "\n"
  {
    HtmlFour(Open(P), Styled(text), Close(P), Break);
    TagsAre();
  }

  lemma QuoteHtml(text: string)
    ensures
      HtmlOf([Open(Blockquote), Open(P), Styled(text), Close(P), Close(Blockquote), Break])
      == "<blockquote>" + "<p>" + Inline.Inlined(text) + "</p>" + "</blockquote>" + "\n"
  {
    HtmlSix(Open(Blockquote), Open(P), Styled(text), Close(P), Close(Blockquote), Break);
    TagsAre();
  }

  /** A paragraph prints its lines, trimmed and with spaces between them. */
  lemma ParagraphPrinted(lines: seq<string>, i: nat, j: nat, texts: seq<string>)
    requires IsBlock(lines, i, j) && LineKind(lines[i]).Plain?
    requires ParagraphTexts(lines, i, j, texts)
    ensures HtmlOf(BlockPieces(lines, i, j)) == "<p>" + Inline.Inlined(Join(texts, " ")) + "</p>" + "\n"
  {
    BlockIs(lines, i, j);
    TrimmedAre(lines, i, j, texts);
    ParagraphHtml(Join(texts, " "));
  }

  /** A quote prints what stands behind the marks of its lines. */
  lemma QuotePrinted(lines: seq<string>, i: nat, j: nat, texts: seq<string>)
    requires IsBlock(lines, i, j) && LineKind(lines[i]).Quote?
    requires QuotedTexts(lines, i, j, texts)
    ensures
      HtmlOf(BlockPieces(lines, i, j))
      == "<blockquote>" + "<p>" + Inline.Inlined(Join(texts, " ")) + "</p>" + "</blockquote>" + "\n"
  {
    BlockIs(lines, i, j);
    QuotesAre(lines, i, j, texts);
    QuoteHtml(Join(texts, " "));
  }

  /** The last line of code that is printed: blank lines at the end are not. */
  ghost predicate EndsWithCode(code: seq<string>, kept: seq<string>) {
    && kept <= code && (forall k :: |kept| <= k < |code| ==> Trim(code[k]) == "")
    && (kept != [] ==> Trim(kept[|kept| - 1]) != "")
  }

  /** A fenced block prints the lines between its fences, escaped; the closing fence may be missing. */
  lemma FencePrinted(lines: seq<string>, i: nat, j: nat, code: seq<string>, kept: seq<string>)
    requires IsBlock(lines, i, j) && LineKind(lines[i]).Fence?
    requires code == if j > i + 1 && IsFence(lines[j - 1]) then lines[i + 1..j - 1] else lines[i + 1..j]
    requires EndsWithCode(code, kept)
    ensures
      HtmlOf(BlockPieces(lines, i, j))
      == "<pre>" + "<code>" + I.Escape(Join(kept, "\n")) + "</code>" + "</pre>" + "\n"
  {
    FenceIs(lines, i, j, code, kept);
    FenceHtml(Join(kept, "\n"));
  }

  lemma FenceIs(lines: seq<string>, i: nat, j: nat, code: seq<string>, kept: seq<string>)
    requires IsBlock(lines, i, j) && LineKind(lines[i]).Fence?
    requires code == if j > i + 1 && IsFence(lines[j - 1]) then lines[i + 1..j - 1] else lines[i + 1..j]
    requires EndsWithCode(code, kept)
    ensures
      BlockPieces(lines, i, j)
      == [Open(Pre), Open(Code), Verbatim(Join(kept, "\n")), Close(Code), Close(Pre), Break]
  {
    BodyIs(lines, i, j);
    KeptIs(code, kept);
  }

  lemma FenceHtml(text: string)
    ensures
      HtmlOf([Open(Pre), Open(Code), Verbatim(text), Close(Code), Close(Pre), Break])
      == "<pre>" + "<code>" + I.Escape(text) + "</code>" + "</pre>" + "\n"
  {
    HtmlSix(Open(Pre), Open(Code), Verbatim(text), Close(Code), Close(Pre), Break);
    CodeTagsAre();
  }

  lemma BodyIs(lines: seq<string>, i: nat, j: nat)
    requires i < j <= |lines|
    ensures
      FenceBody(lines[i..j]) == if j > i + 1 && IsFence(lines[j - 1]) then lines[i + 1..j - 1] else lines[i + 1..j]
  {
    var block := lines[i..j];
    assert block[|block| - 1] == lines[j - 1];
    assert block[1..] == lines[i + 1..j];
    if j > i + 1 {
      SliceOfSlice(lines, i, j, 1, j - i - 1);
    }
  }

  lemma KeptIs(code: seq<string>, kept: seq<string>)
    requires EndsWithCode(code, kept)
    ensures WithoutBlankEnd(code) == kept
  {
    CodeKept(code);
    NotLonger(code, kept, WithoutBlankEnd(code));
    NotLonger(code, WithoutBlankEnd(code), kept);
  }

  lemma NotLonger(code: seq<string>, a: seq<string>, b: seq<string>)
    requires EndsWithCode(code, a) && EndsWithCode(code, b)
    ensures |a| <= |b|
  {
    if a != [] {
      assert a[|a| - 1] == code[|a| - 1];
    }
  }

  // ----- lists -----

  function ItemsHtml(items: seq<string>): string {
    if items == [] then ""
    else
      ItemsHtml(items[..|items| - 1]) + ("<li>" + Inline.Inlined(items[|items| - 1]) + "</li>" + "\n")
  }

  lemma {:induction false} ItemsPrinted(items: seq<string>)
    ensures HtmlOf(ItemPieces(items)) == ItemsHtml(items)
  {
    if items != [] {
      var before, item := items[..|items| - 1], items[|items| - 1];
      ItemsPrinted(before);
      HtmlAppend(ItemPieces(before), [Open(Li), Styled(item), Close(Li), Break]);
      HtmlFour(Open(Li), Styled(item), Close(Li), Break);
      TagsAre();
    }
  }

  /** The number that a list is printed with: that of its first line, unless it is 1. */
  predicate StartsAt(line: string, start: string) {
    var number := OrderedStart(Trim(line));
    start == if number == "1" then "" else number
  }

  /** A list prints its items between its tags, an ordered one with its first number. */
  lemma ListPrinted(lines: seq<string>, i: nat, j: nat, start: string)
    requires IsBlock(lines, i, j) && (LineKind(lines[i]).Bullet? || LineKind(lines[i]).Number?)
    requires StartsAt(lines[i], start)
    ensures
      LineKind(lines[i]).Bullet? ==>
        HtmlOf(BlockPieces(lines, i, j))
        == "<ul>" + "\n" + ItemsHtml(Items(BulletText, lines[i..j])) + ("</ul>" + "\n")
    ensures
      LineKind(lines[i]).Number? ==>
        HtmlOf(BlockPieces(lines, i, j))
        == (if start == "" then "<ol>" else "<ol start=\"" + start + "\">")
           + "\n" + ItemsHtml(Items(OrderedText, lines[i..j])) + ("</ol>" + "\n")
  {
    var ordered := LineKind(lines[i]).Number?;
    var itemText := if ordered then OrderedText else BulletText;
    var tag := if ordered then Ol(start) else Ul;
    ListIs(lines, i, j, ordered, itemText, tag);
    ListHtml(tag, Items(itemText, lines[i..j]));
    ListTagsAre(start);
  }

  lemma ListIs(lines: seq<string>, i: nat, j: nat, ordered: bool, itemText: string -> string, tag: Tag)
    requires IsBlock(lines, i, j) && LineKind(lines[i]) == if ordered then Number else Bullet
    requires itemText == if ordered then OrderedText else BulletText
    requires tag == ListTag(ordered, lines[i])
    ensures
      BlockPieces(lines, i, j) == [Open(tag), Break] + ItemPieces(Items(itemText, lines[i..j])) + [Close(tag), Break]
  {
    assert lines[i..j][0] == lines[i];
  }

  lemma ListHtml(tag: Tag, items: seq<string>)
    ensures
      HtmlOf([Open(tag), Break] + ItemPieces(items) + [Close(tag), Break])
      == Html(Open(tag)) + "\n" + ItemsHtml(items) + (Html(Close(tag)) + "\n")
  {
    HtmlTwo(Open(tag), Break);
    HtmlTwo(Close(tag), Break);
    ItemsPrinted(items);
    HtmlAppend([Open(tag), Break], ItemPieces(items));
    HtmlAppend([Open(tag), Break] + ItemPieces(items), [Close(tag), Break]);
  }

  /** A marked line starts an item; any other line that is not blank goes on with the item before it. */
  lemma OneLineMore(itemText: string -> string, block: seq<string>, line: string)
    ensures
      var before, after, t := Items(itemText, block), Items(itemText, block + [line]), Trim(line);
      if itemText(t) != "" then after == before + [itemText(t)]
      else if t == "" || before == [] then after == before
      else
        && |after| == |before| && after[..|before| - 1] == before[..|before| - 1]
        && after[|before| - 1] == before[|before| - 1] + " " + t
  {
    assert (block + [line])[..|block|] == block;
  }

  // ----- the source -----

  lemma {:induction false} LinesJoined(s: string)
    ensures Lines(s) != [] && Join(Lines(s), "\n") == s
    ensures forall k :: 0 <= k < |Lines(s)| ==> '\n' !in Lines(s)[k]
  {
    if s == "" {
    } else {
      var rest := Lines(s[1..]);
      LinesJoined(s[1..]);
      assert s == [s[0]] + s[1..];
      if s[0] == '\n' {
        JoinFront("", rest);
      } else {
        JoinGlued([s[0]], rest);
      }
    }
  }

  lemma {:induction false} JoinFront(first: string, rest: seq<string>)
    requires rest != []
    ensures Join([first] + rest, "\n") == first + "\n" + Join(rest, "\n")
  {
    var all, n := [first] + rest, |rest|;
    assert all[..n] == [first] + rest[..n - 1] && all[n] == rest[n - 1];
    if n == 1 {
      assert all[..1] == [first];
    } else {
      JoinFront(first, rest[..n - 1]);
      Assoc(first + "\n", Join(rest[..n - 1], "\n"), "\n");
      Assoc(first + "\n", Join(rest[..n - 1], "\n") + "\n", rest[n - 1]);
    }
  }

  lemma JoinGlued(front: string, rest: seq<string>)
    requires rest != []
    ensures Join([front + rest[0]] + rest[1..], "\n") == front + Join(rest, "\n")
  {
    if |rest| == 1 {
      assert [front + rest[0]] + rest[1..] == [front + rest[0]];
    } else {
      JoinFront(front + rest[0], rest[1..]);
      JoinFront(rest[0], rest[1..]);
      assert [rest[0]] + rest[1..] == rest;
      Assoc(front, rest[0], "\n");
      Assoc(front, rest[0] + "\n", Join(rest[1..], "\n"));
    }
  }

  /** A line end that is cut in two. */
  predicate Breaks(a: string, b: string) {
    a != "" && b != "" && a[|a| - 1] == '\r' && b[0] == '\n'
  }

  /** A text is cleaned part by part, unless a line end is cut in two. */
  lemma {:induction false} CleanedTogether(a: string, b: string)
    requires !Breaks(a, b)
    ensures Cleaned(a + b) == Cleaned(a) + Cleaned(b)
    decreases |a|
  {
    if a == "" {
      assert a + b == b;
    } else {
      var s, n := a + b, if "\r\n" <= a then 2 else 1;
      LineEndIn(a, b);
      assert s[0] == a[0] && s[n..] == a[n..] + b;
      CleanedTogether(a[n..], b);
      CleanedFirst(a);
      CleanedFirst(s);
      Assoc(FirstCleaned(a), Cleaned(a[n..]), Cleaned(b));
    }
  }

  function FirstCleaned(s: string): string
    requires s != ""
  {
    if "\r\n" <= s then "\n" else if s[0] == I.NUL then "" else [s[0]]
  }

  lemma CleanedFirst(s: string)
    requires s != ""
    ensures Cleaned(s) == FirstCleaned(s) + Cleaned(s[if "\r\n" <= s then 2 else 1..])
  {
    assert "" + Cleaned(s[1..]) == Cleaned(s[1..]);
  }

  lemma LineEndIn(a: string, b: string)
    requires a != "" && !Breaks(a, b)
    ensures "\r\n" <= a + b <==> "\r\n" <= a
  {
    var s := a + b;
    if |a| >= 2 {
      assert s[0] == a[0] && s[1] == a[1];
    } else if b != "" {
      assert s[0] == a[0] && s[1] == b[0];
    }
  }

  /** A line end loses its carriage return, a NUL goes, and any other character stays. */
  lemma CleanedOne(c: char)
    ensures Cleaned("\r\n") == "\n" && Cleaned([I.NUL]) == ""
    ensures c != I.NUL ==> Cleaned([c]) == [c]
  {
    assert "\r\n"[2..] == "" && [I.NUL][1..] == "" && [c][1..] == "";
    CleanedFirst("\r\n");
    CleanedFirst([c]);
  }
}
