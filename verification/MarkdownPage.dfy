/** What holds of every rendered page: its tags nest, lists lose no text, and when it is free of NUL. */
module MarkdownPage {
  import opened Text
  import opened Markdown
  import I = InlineRules
  import Inline

  // ----- nesting -----

  predicate Inside(stack: seq<Tag>, tag: Tag) {
    stack != [] && stack[|stack| - 1] == tag
  }

  predicate InsideList(stack: seq<Tag>) {
    stack != [] && (stack[|stack| - 1].Ul? || stack[|stack| - 1].Ol?)
  }

  /** What may stand where: blocks outside of each other, items only in lists, text only in text blocks. */
  predicate Fits(stack: seq<Tag>, piece: Piece) {
    match piece
    case Open(Code) => stack == [Pre]
    case Open(Li) => |stack| == 1 && InsideList(stack)
    case Open(P) => stack == [] || stack == [Blockquote]
    case Open(H(level)) => stack == [] && 1 <= level <= 6
    case Open(_) => stack == []
    case Close(tag) => Inside(stack, tag)
    case Verbatim(_) => Inside(stack, Code)
    case Styled(_) => stack != [] && (stack[|stack| - 1].P? || stack[|stack| - 1].H? || stack[|stack| - 1].Li?)
    case Hr => stack == []
    case Break => stack == [] || InsideList(stack)
  }

  /** The open tags behind the pieces, if every piece fits where it stands. */
  function OpenTags(stack: seq<Tag>, pieces: seq<Piece>): Option<seq<Tag>>
    decreases |pieces|
  {
    if pieces == [] then Some(stack)
    else if !Fits(stack, pieces[0]) then None
    else
      var next :=
        match pieces[0]
        case Open(tag) => stack + [tag]
        case Close(_) => stack[..|stack| - 1]
        case _ => stack;
      OpenTags(next, pieces[1..])
  }

  predicate WellNested(pieces: seq<Piece>) {
    OpenTags([], pieces) == Some([])
  }

  lemma {:induction false} OpenTagsAppend(stack: seq<Tag>, a: seq<Piece>, b: seq<Piece>)
    ensures
      OpenTags(stack, a + b)
      == match OpenTags(stack, a) case None => None case Some(open) => OpenTags(open, b)
    decreases |a|
  {
    if a == [] {
      assert a + b == b;
    } else {
      assert (a + b)[0] == a[0] && (a + b)[1..] == a[1..] + b;
      if Fits(stack, a[0]) {
        var next :=
          match a[0]
          case Open(tag) => stack + [tag]
          case Close(_) => stack[..|stack| - 1]
          case _ => stack;
        OpenTagsAppend(next, a[1..], b);
      }
    }
  }

  lemma Opens(stack: seq<Tag>, tag: Tag)
    requires Fits(stack, Open(tag))
    ensures OpenTags(stack, [Open(tag)]) == Some(stack + [tag])
  {
    assert [Open(tag)][1..] == [];
  }

  lemma Closes(stack: seq<Tag>, tag: Tag)
    ensures OpenTags(stack + [tag], [Close(tag)]) == Some(stack)
  {
    assert [Close(tag)][1..] == [];
    assert (stack + [tag])[..|stack|] == stack;
  }

  /** A tag around pieces that leave nothing open leaves nothing open. */
  lemma Around(stack: seq<Tag>, tag: Tag, inner: seq<Piece>)
    requires Fits(stack, Open(tag)) && OpenTags(stack + [tag], inner) == Some(stack + [tag])
    ensures OpenTags(stack, [Open(tag)] + inner + [Close(tag)]) == Some(stack)
  {
    Opens(stack, tag);
    Closes(stack, tag);
    OpenTagsAppend(stack, [Open(tag)], inner);
    OpenTagsAppend(stack, [Open(tag)] + inner, [Close(tag)]);
  }

  lemma Leaf(stack: seq<Tag>, piece: Piece)
    requires Fits(stack, piece) && !piece.Open? && !piece.Close?
    ensures OpenTags(stack, [piece]) == Some(stack)
  {
    assert [piece][1..] == [];
  }

  lemma {:induction false} ItemsNest(tag: Tag, items: seq<string>)
    requires InsideList([tag])
    ensures OpenTags([tag], ItemPieces(items)) == Some([tag])
  {
    if items != [] {
      var before, item := items[..|items| - 1], items[|items| - 1];
      ItemsNest(tag, before);
      var one := [Open(Li)] + [Styled(item)] + [Close(Li)];
      assert [Open(Li), Styled(item), Close(Li), Break] == one + [Break];
      Leaf([tag] + [Li], Styled(item));
      Around([tag], Li, [Styled(item)]);
      Leaf([tag], Break);
      OpenTagsAppend([tag], one, [Break]);
      OpenTagsAppend([tag], ItemPieces(before), one + [Break]);
    }
  }

  lemma ListNests(itemText: string -> string, ordered: bool, block: seq<string>)
    requires block != []
    ensures WellNested(ListPieces(itemText, ordered, block))
  {
    var tag, items := ListTag(ordered, block[0]), ItemPieces(Items(itemText, block));
    ItemsNest(tag, Items(itemText, block));
    WrappedListNests(tag, items);
    assert ListPieces(itemText, ordered, block) == [Open(tag)] + ([Break] + items) + [Close(tag)] + [Break];
  }

  lemma WrappedListNests(tag: Tag, items: seq<Piece>)
    requires InsideList([tag]) && OpenTags([tag], items) == Some([tag])
    ensures WellNested([Open(tag)] + ([Break] + items) + [Close(tag)] + [Break])
  {
    Leaf([tag], Break);
    OpenTagsAppend([tag], [Break], items);
    assert [] + [tag] == [tag];
    Around([], tag, [Break] + items);
    Leaf([], Break);
    OpenTagsAppend([], [Open(tag)] + ([Break] + items) + [Close(tag)], [Break]);
  }

  lemma TextBlockNests(tag: Tag, text: string)
    requires Fits([], Open(tag)) && (tag.P? || tag.H?)
    ensures WellNested([Open(tag), Styled(text), Close(tag), Break])
  {
    assert [] + [tag] == [tag];
    Leaf([tag], Styled(text));
    Around([], tag, [Styled(text)]);
    Leaf([], Break);
    OpenTagsAppend([], [Open(tag)] + [Styled(text)] + [Close(tag)], [Break]);
    assert [Open(tag), Styled(text), Close(tag), Break] == [Open(tag)] + [Styled(text)] + [Close(tag)] + [Break];
  }

  lemma FenceNests(block: seq<string>)
    requires block != []
    ensures WellNested(FencePieces(block))
  {
    var text := Verbatim(Join(WithoutBlankEnd(FenceBody(block)), "\n"));
    var code := [Open(Code)] + [text] + [Close(Code)];
    assert [] + [Pre] == [Pre];
    Leaf([Pre] + [Code], text);
    Around([Pre], Code, [text]);
    Around([], Pre, code);
    Leaf([], Break);
    OpenTagsAppend([], [Open(Pre)] + code + [Close(Pre)], [Break]);
    assert FencePieces(block) == [Open(Pre)] + code + [Close(Pre)] + [Break];
  }

  lemma QuoteNests(block: seq<string>)
    ensures WellNested(QuotePieces(block))
  {
    var text := Styled(Join(QuoteTexts(block), " "));
    var inner := [Open(P)] + [text] + [Close(P)];
    assert [] + [Blockquote] == [Blockquote];
    Leaf([Blockquote] + [P], text);
    Around([Blockquote], P, [text]);
    Around([], Blockquote, inner);
    Leaf([], Break);
    OpenTagsAppend([], [Open(Blockquote)] + inner + [Close(Blockquote)], [Break]);
    assert QuotePieces(block) == [Open(Blockquote)] + inner + [Close(Blockquote)] + [Break];
  }

  lemma BlockNests(lines: seq<string>, i: nat, j: nat)
    requires IsBlock(lines, i, j)
    ensures WellNested(BlockPieces(lines, i, j))
  {
    var block := lines[i..j];
    match LineKind(lines[i])
    case Blank =>
    case Fence => FenceNests(block);
    case Heading =>
      var s := Trim(lines[i]);
      TextBlockNests(H(HeadingLevel(s)), Trim(s[HeadingLevel(s)..]));
    case Rule =>
      Leaf([], Hr);
      Leaf([], Break);
      OpenTagsAppend([], [Hr], [Break]);
      assert [Hr, Break] == [Hr] + [Break];
    case Bullet => ListNests(BulletText, false, block);
    case Number => ListNests(OrderedText, true, block);
    case Quote => QuoteNests(block);
    case Plain => TextBlockNests(P, Join(Trimmed(block), " "));
  }

  /** Whatever the lines are, every tag closes, in order, and stands where it may stand. */
  lemma {:induction false} PageNests(lines: seq<string>, i: nat)
    ensures WellNested(Document(lines, i))
    decreases |lines| - i
  {
    if i < |lines| {
      var j := End(lines, i);
      BlockUnique(lines, i, j);
      BlockNests(lines, i, j);
      PageNests(lines, j);
      OpenTagsAppend([], BlockPieces(lines, i, j), Document(lines, j));
    }
  }

  // ----- lists lose no text -----

  /** The texts of the lines of a list, without the markers, in order; blank lines have none. */
  function LineTexts(itemText: string -> string, block: seq<string>): seq<string> {
    if block == [] then []
    else
      var before, t := LineTexts(itemText, block[..|block| - 1]), Trim(block[|block| - 1]);
      if t == "" then before else before + [if itemText(t) != "" then itemText(t) else t]
  }

  lemma JoinLast(parts: seq<string>, more: string, separator: string)
    requires parts != []
    ensures Join(parts + [more], separator) == Join(parts, separator) + separator + more
    ensures
      var last := parts[..|parts| - 1] + [parts[|parts| - 1] + separator + more];
      Join(last, separator) == Join(parts, separator) + separator + more
  {
    var n := |parts| - 1;
    assert (parts + [more])[..n + 1] == parts;
    var last := parts[..n] + [parts[n] + separator + more];
    assert last[..n] == parts[..n];
    if n > 0 {
      var front := Join(parts[..n], separator) + separator;
      Assoc(front, parts[n], separator + more);
      Assoc(parts[n], separator, more);
      Assoc(front + parts[n], separator, more);
    }
  }

  /** One more line adds the same words to the items and to the texts. */
  lemma LineKeepsText(itemText: string -> string, front: seq<string>, line: string)
    requires Items(itemText, front) != [] && LineTexts(itemText, front) != []
    requires itemText("") == "" && Join(Items(itemText, front), " ") == Join(LineTexts(itemText, front), " ")
    ensures
      Join(Items(itemText, front + [line]), " ") == Join(LineTexts(itemText, front + [line]), " ")
  {
    var t := Trim(line);
    assert (front + [line])[..|front|] == front;
    if t != "" {
      var more := if itemText(t) != "" then itemText(t) else t;
      JoinLast(Items(itemText, front), more, " ");
      JoinLast(LineTexts(itemText, front), more, " ");
    }
  }

  lemma FirstLine(itemText: string -> string, line: string)
    requires itemText("") == "" && itemText(Trim(line)) != ""
    ensures Items(itemText, [line]) == [itemText(Trim(line))] == LineTexts(itemText, [line])
  {
    assert [line][..0] == [];
    assert Items(itemText, []) == [] && LineTexts(itemText, []) == [];
  }

  /** A list has an item, no item is empty, and the items hold the texts of all lines in their order. */
  lemma ListKeepsText(itemText: string -> string, block: seq<string>)
    requires block != [] && itemText("") == "" && itemText(Trim(block[0])) != ""
    ensures Items(itemText, block) != [] && LineTexts(itemText, block) != []
    ensures forall k :: 0 <= k < |Items(itemText, block)| ==> Items(itemText, block)[k] != ""
    ensures Join(Items(itemText, block), " ") == Join(LineTexts(itemText, block), " ")
  {
    AllKept(itemText, block);
  }

  ghost predicate Kept(itemText: string -> string, block: seq<string>) {
    && Items(itemText, block) != [] && LineTexts(itemText, block) != []
    && (forall k :: 0 <= k < |Items(itemText, block)| ==> Items(itemText, block)[k] != "")
    && Join(Items(itemText, block), " ") == Join(LineTexts(itemText, block), " ")
  }

  lemma FirstKept(itemText: string -> string, line: string)
    requires itemText("") == "" && itemText(Trim(line)) != ""
    ensures Kept(itemText, [line])
  {
    FirstLine(itemText, line);
  }

  lemma LineKept(itemText: string -> string, front: seq<string>, line: string)
    requires itemText("") == "" && Kept(itemText, front)
    ensures Kept(itemText, front + [line])
  {
    LineKeepsText(itemText, front, line);
    LineAddsItem(itemText, front, line);
  }

  lemma {:induction false} AllKept(itemText: string -> string, block: seq<string>)
    requires block != [] && itemText("") == "" && itemText(Trim(block[0])) != ""
    ensures Kept(itemText, block)
  {
    var front, line := block[..|block| - 1], block[|block| - 1];
    assert block == front + [line];
    if front == [] {
      assert block == [line];
      FirstKept(itemText, line);
    } else {
      assert front[0] == block[0];
      AllKept(itemText, front);
      LineKept(itemText, front, line);
    }
  }

  lemma LineAddsItem(itemText: string -> string, front: seq<string>, line: string)
    requires Items(itemText, front) != [] && LineTexts(itemText, front) != []
    requires forall k :: 0 <= k < |Items(itemText, front)| ==> Items(itemText, front)[k] != ""
    ensures Items(itemText, front + [line]) != [] && LineTexts(itemText, front + [line]) != []
    ensures forall k :: 0 <= k < |Items(itemText, front + [line])| ==> Items(itemText, front + [line])[k] != ""
  {
    assert (front + [line])[..|front|] == front;
  }

  /** Only blank lines go from the end of a code block, and all of those. */
  lemma {:induction false} CodeKept(code: seq<string>)
    ensures WithoutBlankEnd(code) <= code
    ensures forall k :: |WithoutBlankEnd(code)| <= k < |code| ==> Trim(code[k]) == ""
    ensures WithoutBlankEnd(code) != [] ==> Trim(WithoutBlankEnd(code)[|WithoutBlankEnd(code)| - 1]) != ""
  {
    if code != [] && Trim(code[|code| - 1]) == "" {
      CodeKept(code[..|code| - 1]);
    }
  }

  /** In every list block of every document. */
  lemma DocumentListsKeepText(lines: seq<string>, i: nat, j: nat, itemText: string -> string)
    requires IsBlock(lines, i, j)
    requires
      || (LineKind(lines[i]).Bullet? && itemText == BulletText)
      || (LineKind(lines[i]).Number? && itemText == OrderedText)
    ensures BlockPieces(lines, i, j) == ListPieces(itemText, LineKind(lines[i]).Number?, lines[i..j])
    ensures Items(itemText, lines[i..j]) != []
    ensures Join(Items(itemText, lines[i..j]), " ") == Join(LineTexts(itemText, lines[i..j]), " ")
  {
    BlockIsList(lines, i, j, itemText);
    assert lines[i..j][0] == lines[i];
    FirstIsItem(lines[i], itemText);
    NothingIsNoItem();
    ListKeepsText(itemText, lines[i..j]);
  }

  lemma BlockIsList(lines: seq<string>, i: nat, j: nat, itemText: string -> string)
    requires IsBlock(lines, i, j)
    requires
      || (LineKind(lines[i]).Bullet? && itemText == BulletText)
      || (LineKind(lines[i]).Number? && itemText == OrderedText)
    ensures BlockPieces(lines, i, j) == ListPieces(itemText, LineKind(lines[i]).Number?, lines[i..j])
  {
  }

  lemma NothingIsNoItem()
    ensures BulletText("") == "" && OrderedText("") == ""
  {
  }

  lemma FirstIsItem(line: string, itemText: string -> string)
    requires
      || (LineKind(line).Bullet? && itemText == BulletText)
      || (LineKind(line).Number? && itemText == OrderedText)
    ensures itemText(Trim(line)) != ""
  {
  }

  // ----- the page as text -----

  /** strings.NewReplacer("\r\n", "\n", NUL, "") */
  function Cleaned(s: string): string {
    if s == "" then ""
    else if "\r\n" <= s then "\n" + Cleaned(s[2..])
    else if s[0] == I.NUL then Cleaned(s[1..])
    else [s[0]] + Cleaned(s[1..])
  }

  /** strings.Split at line feeds */
  function Lines(s: string): seq<string> {
    if s == "" then [""]
    else
      var rest := Lines(s[1..]);
      if s[0] == '\n' then [""] + rest
      else if rest == [] then [[s[0]]]
      else [[s[0]] + rest[0]] + rest[1..]
  }

  function Name(tag: Tag): string {
    match tag
    case Pre => "pre"
    case Code => "code"
    case H(level) => "h" + Decimal(level)
    case Ul => "ul"
    case Ol(_) => "ol"
    case Li => "li"
    case Blockquote => "blockquote"
    case P => "p"
  }

  function Html(piece: Piece): string {
    match piece
    case Open(Ol(start)) => if start == "" then "<ol>" else "<ol start=\"" + start + "\">"
    case Open(tag) => "<" + Name(tag) + ">"
    case Close(tag) => "</" + Name(tag) + ">"
    case Verbatim(text) => I.Escape(text)
    case Styled(text) => Inline.Inlined(text)
    case Hr => "<hr>"
    case Break => "\n"
  }

  function HtmlOf(pieces: seq<Piece>): string {
    if pieces == [] then "" else Html(pieces[0]) + HtmlOf(pieces[1..])
  }

  ghost function Page(src: string): string {
    HtmlOf(Document(Lines(Cleaned(src)), 0))
  }

  method Print(pieces: seq<Piece>) returns (page: string)
    ensures page == HtmlOf(pieces)
  {
    page := "";
    for i := 0 to |pieces|
      invariant page + HtmlOf(pieces[i..]) == HtmlOf(pieces)
    {
      Assoc(page, Html(pieces[i]), HtmlOf(pieces[i + 1..]));
      assert pieces[i..][1..] == pieces[i + 1..];
      page := page + Html(pieces[i]);
    }
    assert page + "" == page;
  }

  method Render(src: string) returns (page: string)
    ensures page == Page(src)
  {
    var b := new Builder();
    RenderMarkdown(b, Lines(Cleaned(src)));
    assert [] + Document(Lines(Cleaned(src)), 0) == Document(Lines(Cleaned(src)), 0);
    page := Print(b.pieces);
  }

  // ----- NUL -----

  predicate Free(s: string) {
    I.NUL !in s
  }

  predicate AllFree(lines: seq<string>) {
    forall k :: 0 <= k < |lines| ==> Free(lines[k])
  }

  lemma {:induction false} CleanedFree(s: string)
    ensures Free(Cleaned(s))
  {
    if s != "" {
      CleanedFree(s[1..]);
      if "\r\n" <= s {
        CleanedFree(s[2..]);
      }
    }
  }

  lemma {:induction false} LinesFree(s: string)
    requires Free(s)
    ensures AllFree(Lines(s))
  {
    if s != "" {
      LinesFree(s[1..]);
    }
  }

  lemma {:induction false} TrimLeftFree(s: string)
    requires Free(s)
    ensures Free(TrimLeft(s))
  {
    if s != "" && IsSpace(s[0]) {
      TrimLeftFree(s[1..]);
    }
  }

  lemma {:induction false} TrimRightFree(s: string)
    requires Free(s)
    ensures Free(TrimRight(s))
  {
    if s != "" && IsSpace(s[|s| - 1]) {
      TrimRightFree(s[..|s| - 1]);
    }
  }

  lemma TrimFree(s: string)
    requires Free(s)
    ensures Free(Trim(s))
  {
    TrimLeftFree(s);
    TrimRightFree(TrimLeft(s));
  }

  lemma {:induction false} JoinFree(parts: seq<string>, separator: string)
    requires AllFree(parts) && Free(separator)
    ensures Free(Join(parts, separator))
  {
    if |parts| > 1 {
      JoinFree(parts[..|parts| - 1], separator);
    }
  }

  ghost predicate KeepsFree(itemText: string -> string) {
    forall s: string :: Free(s) ==> Free(itemText(s))
  }

  lemma {:induction false} ItemsFree(itemText: string -> string, block: seq<string>)
    requires AllFree(block) && KeepsFree(itemText)
    ensures AllFree(Items(itemText, block))
  {
    if block != [] {
      ItemsFree(itemText, block[..|block| - 1]);
      TrimFree(block[|block| - 1]);
    }
  }

  predicate PieceFree(piece: Piece) {
    && (piece.Verbatim? || piece.Styled? ==> Free(piece.text))
    && (piece.Open? && piece.tag.Ol? ==> Free(piece.tag.start))
  }

  predicate PiecesFree(pieces: seq<Piece>) {
    forall k :: 0 <= k < |pieces| ==> PieceFree(pieces[k])
  }

  lemma {:induction false} ItemPiecesFree(items: seq<string>)
    requires AllFree(items)
    ensures PiecesFree(ItemPieces(items))
  {
    if items != [] {
      ItemPiecesFree(items[..|items| - 1]);
    }
  }

  lemma ListFree(itemText: string -> string, ordered: bool, block: seq<string>)
    requires block != [] && AllFree(block) && KeepsFree(itemText)
    ensures PiecesFree(ListPieces(itemText, ordered, block))
  {
    ItemsFree(itemText, block);
    ItemPiecesFree(Items(itemText, block));
    TrimFree(block[0]);
  }

  lemma ItemTextsFree()
    ensures KeepsFree(BulletText) && KeepsFree(OrderedText)
  {
    forall s: string | Free(s) ensures Free(BulletText(s)) && Free(OrderedText(s)) {
      if |s| >= 2 {
        TrimFree(s[2..]);
      }
      TrimFree(s[OrderedPrefix(s)..]);
    }
  }

  lemma FenceFree(block: seq<string>)
    requires block != [] && AllFree(block)
    ensures PiecesFree(FencePieces(block))
  {
    CodeKept(FenceBody(block));
    JoinFree(WithoutBlankEnd(FenceBody(block)), "\n");
  }

  lemma TrimmedFree(block: seq<string>)
    requires AllFree(block)
    ensures AllFree(Trimmed(block)) && AllFree(QuoteTexts(block))
  {
    forall k | 0 <= k < |block| ensures Free(Trimmed(block)[k]) && Free(QuoteTexts(block)[k]) {
      TrimFree(block[k]);
      TrimFree(if ">" <= Trim(block[k]) then Trim(block[k])[1..] else Trim(block[k]));
    }
  }

  lemma BlockFree(lines: seq<string>, i: nat, j: nat)
    requires IsBlock(lines, i, j) && AllFree(lines)
    ensures PiecesFree(BlockPieces(lines, i, j))
  {
    var block, s := lines[i..j], Trim(lines[i]);
    TrimFree(lines[i]);
    TrimmedFree(block);
    ItemTextsFree();
    match LineKind(lines[i])
    case Blank =>
    case Fence => FenceFree(block);
    case Heading => TrimFree(s[HeadingLevel(s)..]);
    case Rule =>
    case Bullet => ListFree(BulletText, false, block);
    case Number => ListFree(OrderedText, true, block);
    case Quote => JoinFree(QuoteTexts(block), " ");
    case Plain => JoinFree(Trimmed(block), " ");
  }

  lemma {:induction false} DocumentFree(lines: seq<string>, i: nat)
    requires AllFree(lines)
    ensures PiecesFree(Document(lines, i))
    decreases |lines| - i
  {
    if i < |lines| {
      var j := End(lines, i);
      BlockUnique(lines, i, j);
      BlockFree(lines, i, j);
      DocumentFree(lines, j);
    }
  }

  ghost predicate Misleading(piece: Piece) {
    piece.Styled? && exists i :: Inline.MisledAbout(piece.text, i)
  }

  lemma DecimalFree(n: nat)
    ensures Free(Decimal(n))
  {
    assert forall i :: 0 <= i < |Decimal(n)| ==> IsDigit(Decimal(n)[i]);
  }

  lemma HtmlFree(piece: Piece)
    requires PieceFree(piece)
    ensures Free(Html(piece)) <==> !Misleading(piece)
  {
    match piece
    case Open(H(level)) => DecimalFree(level);
    case Close(H(level)) => DecimalFree(level);
    case Verbatim(text) => I.EscapeKeepsOut(text);
    case Styled(text) => Inline.SpansReturnIff(text);
    case _ =>
  }

  ghost predicate NoneMisleads(pieces: seq<Piece>) {
    forall k :: 0 <= k < |pieces| ==> !Misleading(pieces[k])
  }

  lemma {:induction false} HtmlOfFree(pieces: seq<Piece>)
    requires PiecesFree(pieces)
    ensures Free(HtmlOf(pieces)) <==> NoneMisleads(pieces)
  {
    if pieces != [] {
      HtmlFree(pieces[0]);
      HtmlOfFree(pieces[1..]);
      NoneMisleadsStep(pieces);
    }
  }

  lemma NoneMisleadsStep(pieces: seq<Piece>)
    requires pieces != []
    ensures NoneMisleads(pieces) <==> !Misleading(pieces[0]) && NoneMisleads(pieces[1..])
  {
    assert forall k :: 0 < k < |pieces| ==> pieces[k] == pieces[1..][k - 1];
    assert forall k :: 0 <= k < |pieces| - 1 ==> pieces[1..][k] == pieces[k + 1];
  }

  lemma DocumentHtmlFree(lines: seq<string>)
    requires AllFree(lines)
    ensures Free(HtmlOf(Document(lines, 0))) <==> NoneMisleads(Document(lines, 0))
  {
    DocumentFree(lines, 0);
    HtmlOfFree(Document(lines, 0));
  }

  /** For every source whatever, a NUL reaches the page only through code spans that are not found again. */
  lemma PageFree(src: string)
    ensures Free(Page(src)) <==> NoneMisleads(Document(Lines(Cleaned(src)), 0))
  {
    CleanedFree(src);
    LinesFree(Cleaned(src));
    DocumentHtmlFree(Lines(Cleaned(src)));
  }
}
