/** Markup on a page comes from the renderer only: every '<' starts one of its tags. */
module PageTags {
  import opened Text
  import opened Markdown
  import opened MarkdownPage
  import opened InlineSpec
  import opened InlineTags
  import I = InlineRules

  /** What a piece carries of its own: a heading has a level, and an ordered list may have a number. */
  predicate WellMade(piece: Piece) {
    match piece
    case Open(H(level)) => 1 <= level <= 6
    case Close(H(level)) => 1 <= level <= 6
    case Open(Ol(start)) => AllDigits(start)
    case _ => true
  }

  predicate AllWellMade(pieces: seq<Piece>) {
    forall k :: 0 <= k < |pieces| ==> WellMade(pieces[k])
  }

  lemma HeadingTag(level: nat)
    requires 1 <= level <= 6
    ensures IsHeadingTag("<" + Name(H(level)) + ">") && IsHeadingTag("</" + Name(H(level)) + ">")
  {
    assert Decimal(level) == [Digit(level)];
    var open, close := "<" + Name(H(level)) + ">", "</" + Name(H(level)) + ">";
    assert |open| == 4 && open[2] == Digit(level) && |close| == 5 && close[3] == Digit(level);
  }

  lemma NameTags(tag: Tag)
    requires tag.H? ==> 1 <= tag.level <= 6
    ensures IsBlockTag("<" + Name(tag) + ">") && IsBlockTag("</" + Name(tag) + ">")
  {
    if tag.H? {
      HeadingTag(tag.level);
    }
  }

  lemma ListStart(start: string)
    requires AllDigits(start)
    ensures TagsOnly("<ol start=\"" + start + "\">")
  {
    TagAlone("<ol start=\"");
    TextOnly(start + "\">");
    Together("<ol start=\"", start + "\">");
    Assoc("<ol start=\"", start, "\">");
  }

  lemma OpenTagged(tag: Tag)
    requires WellMade(Open(tag))
    ensures TagsOnly(Html(Open(tag)))
  {
    if tag.Ol? && tag.start != "" {
      ListStart(tag.start);
    } else {
      NameTags(tag);
      TagAlone("<" + Name(tag) + ">");
      PlainOpen(tag);
    }
  }

  lemma PlainOpen(tag: Tag)
    ensures !tag.Ol? || tag.start == "" ==> Html(Open(tag)) == "<" + Name(tag) + ">"
  {
  }

  lemma CloseTagged(tag: Tag)
    requires WellMade(Close(tag))
    ensures TagsOnly(Html(Close(tag)))
  {
    NameTags(tag);
    TagAlone("</" + Name(tag) + ">");
  }

  lemma RuleTagged()
    ensures TagsOnly(Html(Hr))
  {
    TagAlone("<hr>");
  }

  lemma BreakTagged()
    ensures TagsOnly(Html(Break))
  {
    TextOnly("\n");
  }

  /** A code block prints no markup at all, and a browser shows its text. */
  lemma VerbatimShown(text: string)
    ensures Harmless(Html(Verbatim(text))) && Unescape(Html(Verbatim(text))) == text
    ensures TagsOnly(Html(Verbatim(text)))
  {
    EscapeShows(text);
    TextOnly(I.Escape(text));
  }

  lemma PieceTagged(piece: Piece)
    requires WellMade(piece)
    ensures TagsOnly(Html(piece))
  {
    match piece
    case Open(tag) => OpenTagged(tag);
    case Close(tag) => CloseTagged(tag);
    case Verbatim(text) => VerbatimShown(text);
    case Styled(text) => InlinedTagged(text);
    case Hr => RuleTagged();
    case Break => BreakTagged();
  }

  lemma {:induction false} HtmlTagged(pieces: seq<Piece>)
    requires AllWellMade(pieces)
    ensures TagsOnly(HtmlOf(pieces))
  {
    if pieces != [] {
      assert WellMade(pieces[0]);
      assert forall k :: 0 <= k < |pieces| - 1 ==> pieces[1..][k] == pieces[k + 1];
      PieceTagged(pieces[0]);
      HtmlTagged(pieces[1..]);
      Together(Html(pieces[0]), HtmlOf(pieces[1..]));
    }
  }

  lemma {:induction false} ItemsWellMade(items: seq<string>)
    ensures AllWellMade(ItemPieces(items))
  {
    if items != [] {
      ItemsWellMade(items[..|items| - 1]);
    }
  }

  lemma {:induction false} DigitsFirst(s: string)
    ensures AllDigits(s[..DigitsOf(s)])
  {
    if s != "" && IsDigit(s[0]) {
      DigitsFirst(s[1..]);
      assert s[..DigitsOf(s)] == [s[0]] + s[1..][..DigitsOf(s[1..])];
    }
  }

  lemma ListWellMade(itemText: string -> string, ordered: bool, block: seq<string>)
    requires block != []
    ensures AllWellMade(ListPieces(itemText, ordered, block))
  {
    ItemsWellMade(Items(itemText, block));
    DigitsFirst(Trim(block[0]));
  }

  lemma BlockWellMade(lines: seq<string>, i: nat, j: nat)
    requires IsBlock(lines, i, j)
    ensures AllWellMade(BlockPieces(lines, i, j))
  {
    match LineKind(lines[i])
    case Bullet => ListWellMade(BulletText, false, lines[i..j]);
    case Number => ListWellMade(OrderedText, true, lines[i..j]);
    case _ =>
  }

  lemma {:induction false} DocumentWellMade(lines: seq<string>, i: nat)
    ensures AllWellMade(Document(lines, i))
    decreases |lines| - i
  {
    if i < |lines| {
      var j := End(lines, i);
      BlockUnique(lines, i, j);
      BlockWellMade(lines, i, j);
      DocumentWellMade(lines, j);
    }
  }

  /** Whatever the source, each '<' of the page starts a tag of the renderer. */
  lemma PageTagged(src: string)
    ensures TagsOnly(Page(src))
  {
    DocumentWellMade(Lines(Cleaned(src)), 0);
    HtmlTagged(Document(Lines(Cleaned(src)), 0));
  }
}
