/**
 * The block renderer: a loop over lines that hands each block to a helper with a loop of its own.  The
 * reference says line by line whether it continues the block that began earlier.
 */
module Markdown {
  import opened Text

  // ----- one line -----

  function Hashes(s: string): (n: nat)
    ensures n <= |s|
  {
    if s != "" && s[0] == '#' then 1 + Hashes(s[1..]) else 0
  }

  function HeadingLevel(s: string): (n: nat)
    ensures n <= |s| && n <= 6
  {
    var n := Hashes(s);
    if n == 0 || n > 6 || n == |s| || s[n] != ' ' then 0 else n
  }

  predicate IsRule(s: string) {
    |s| >= 3 && s[0] in "-*_" && forall i :: 0 <= i < |s| ==> s[i] == s[0]
  }

  function BulletText(s: string): string {
    if |s| >= 2 && s[0] in "-*+" && s[1] == ' ' then Trim(s[2..]) else ""
  }

  function DigitsOf(s: string): (n: nat)
    ensures n <= |s|
  {
    if s != "" && IsDigit(s[0]) then 1 + DigitsOf(s[1..]) else 0
  }

  function SpacesOf(s: string): (n: nat)
    ensures n <= |s|
  {
    if s != "" && s[0] == ' ' then 1 + SpacesOf(s[1..]) else 0
  }

  /** The length of what ^(\d{1,9})[.)] + matches, or 0. */
  function OrderedPrefix(s: string): (n: nat)
    ensures n <= |s|
  {
    var n := DigitsOf(s);
    if n == 0 || n > 9 || n == |s| || s[n] !in ".)" then 0
    else
      var spaces := SpacesOf(s[n + 1..]);
      if spaces == 0 then 0 else n + 1 + spaces
  }

  function OrderedText(s: string): string {
    if OrderedPrefix(s) == 0 then "" else Trim(s[OrderedPrefix(s)..])
  }

  function OrderedStart(s: string): string {
    if OrderedPrefix(s) == 0 then "" else s[..DigitsOf(s)]
  }

  datatype Kind = Blank | Fence | Heading | Rule | Bullet | Number | Quote | Plain

  /** What a trimmed line starts when no block is open, in the order of the renderer's switch. */
  function KindOf(s: string): Kind {
    if s == "" then Blank
    else if "```" <= s then Fence
    else if HeadingLevel(s) > 0 then Heading
    else if IsRule(s) then Rule
    else if BulletText(s) != "" then Bullet
    else if OrderedText(s) != "" then Number
    else if ">" <= s then Quote
    else Plain
  }

  function LineKind(line: string): Kind {
    KindOf(Trim(line))
  }

  /** strings.TrimPrefix(trimmed, ">"), trimmed again */
  function QuoteText(line: string): string {
    Trim(if ">" <= Trim(line) then Trim(line)[1..] else Trim(line))
  }

  // ----- where a block ends -----

  /** peekListItem: the first line from k on that is not blank is an item of this kind of list. */
  predicate NextIsItem(itemText: string -> string, lines: seq<string>, k: nat)
    decreases |lines| - k
  {
    && k < |lines|
    && (if Trim(lines[k]) == "" then NextIsItem(itemText, lines, k + 1) else itemText(Trim(lines[k])) != "")
  }

  predicate InList(itemText: string -> string, lines: seq<string>, k: nat)
    requires k < |lines|
  {
    var t := Trim(lines[k]);
    || itemText(t) != ""
    || (if t == "" then NextIsItem(itemText, lines, k + 1) else "  " <= lines[k])
  }

  /** Line k goes on with the block of line i, if all lines between them do. */
  predicate Continues(lines: seq<string>, i: nat, k: nat)
    requires i < k < |lines|
  {
    match LineKind(lines[i])
    case Fence => k == i + 1 || !("```" <= Trim(lines[k - 1]))
    case Bullet => InList(BulletText, lines, k)
    case Number => InList(OrderedText, lines, k)
    case Quote => ">" <= Trim(lines[k])
    case Plain => LineKind(lines[k]).Plain?
    case _ => false
  }

  /** Lines i to j are one whole block. */
  ghost predicate IsBlock(lines: seq<string>, i: nat, j: nat) {
    && i < j <= |lines|
    && (forall k :: i < k < j ==> Continues(lines, i, k))
    && (j < |lines| ==> !Continues(lines, i, j))
  }

  function EndFrom(lines: seq<string>, i: nat, k: nat): (j: nat)
    requires i < k <= |lines|
    ensures k <= j <= |lines|
    decreases |lines| - k
  {
    if k == |lines| || !Continues(lines, i, k) then k else EndFrom(lines, i, k + 1)
  }

  function End(lines: seq<string>, i: nat): (j: nat)
    requires i < |lines|
    ensures i < j <= |lines|
  {
    EndFrom(lines, i, i + 1)
  }

  lemma {:induction false} EndFromIsBlock(lines: seq<string>, i: nat, k: nat)
    requires i < k <= |lines| && forall m :: i < m < k ==> Continues(lines, i, m)
    ensures IsBlock(lines, i, EndFrom(lines, i, k))
    decreases |lines| - k
  {
    if k < |lines| && Continues(lines, i, k) {
      EndFromIsBlock(lines, i, k + 1);
    }
  }

  /** There is exactly one way to cut a document into blocks. */
  lemma BlockUnique(lines: seq<string>, i: nat, j: nat)
    requires i < |lines|
    ensures IsBlock(lines, i, j) <==> j == End(lines, i)
  {
    EndFromIsBlock(lines, i, i + 1);
  }

  // ----- what a block looks like -----

  datatype Tag = Pre | Code | H(level: nat) | Ul | Ol(start: string) | Li | Blockquote | P

  datatype Piece =
    | Open(tag: Tag)
    | Close(tag: Tag)
    | Verbatim(text: string)   // escaped, not styled
    | Styled(text: string)     // through the inline rules
    | Hr
    | Break                    // a line feed between tags

  function WithoutBlankEnd(code: seq<string>): seq<string> {
    if code != [] && Trim(code[|code| - 1]) == "" then WithoutBlankEnd(code[..|code| - 1]) else code
  }

  /** The lines of a fenced block without its fences; the last one may be missing. */
  function FenceBody(block: seq<string>): seq<string>
    requires block != []
  {
    if |block| > 1 && "```" <= Trim(block[|block| - 1]) then block[1..|block| - 1] else block[1..]
  }

  /** The items of a list block: every other line that is not blank goes on with the item before it. */
  function Items(itemText: string -> string, block: seq<string>): seq<string> {
    if block == [] then []
    else
      var before, t := Items(itemText, block[..|block| - 1]), Trim(block[|block| - 1]);
      if itemText(t) != "" then before + [itemText(t)]
      else if t == "" || before == [] then before
      else before[..|before| - 1] + [before[|before| - 1] + " " + t]
  }

  function ItemPieces(items: seq<string>): seq<Piece> {
    if items == [] then []
    else ItemPieces(items[..|items| - 1]) + [Open(Li), Styled(items[|items| - 1]), Close(Li), Break]
  }

  function ListTag(ordered: bool, first: string): Tag {
    var start := OrderedStart(Trim(first));
    if !ordered then Ul else Ol(if start == "1" then "" else start)
  }

  function ListPieces(itemText: string -> string, ordered: bool, block: seq<string>): seq<Piece>
    requires block != []
  {
    var tag := ListTag(ordered, block[0]);
    [Open(tag), Break] + ItemPieces(Items(itemText, block)) + [Close(tag), Break]
  }

  function QuoteTexts(block: seq<string>): seq<string> {
    seq(|block|, k requires 0 <= k < |block| => QuoteText(block[k]))
  }

  function Trimmed(block: seq<string>): seq<string> {
    seq(|block|, k requires 0 <= k < |block| => Trim(block[k]))
  }

  function HeadingPieces(s: string): seq<Piece> {
    var level := HeadingLevel(s);
    [Open(H(level)), Styled(Trim(s[level..])), Close(H(level)), Break]
  }

  function FencePieces(block: seq<string>): seq<Piece>
    requires block != []
  {
    [Open(Pre), Open(Code), Verbatim(Join(WithoutBlankEnd(FenceBody(block)), "\n")), Close(Code), Close(Pre), Break]
  }

  function QuotePieces(block: seq<string>): seq<Piece> {
    [Open(Blockquote), Open(P), Styled(Join(QuoteTexts(block), " ")), Close(P), Close(Blockquote), Break]
  }

  function ParagraphPieces(block: seq<string>): seq<Piece> {
    [Open(P), Styled(Join(Trimmed(block), " ")), Close(P), Break]
  }

  function BlockPieces(lines: seq<string>, i: nat, j: nat): seq<Piece>
    requires IsBlock(lines, i, j)
  {
    var block := lines[i..j];
    match LineKind(lines[i])
    case Blank => []
    case Fence => FencePieces(block)
    case Heading => HeadingPieces(Trim(lines[i]))
    case Rule => [Hr, Break]
    case Bullet => ListPieces(BulletText, false, block)
    case Number => ListPieces(OrderedText, true, block)
    case Quote => QuotePieces(block)
    case Plain => ParagraphPieces(block)
  }

  /** The blocks from line i on. */
  ghost function Document(lines: seq<string>, i: nat): seq<Piece>
    decreases |lines| - i
  {
    if i >= |lines| then []
    else
      BlockUnique(lines, i, End(lines, i));
      BlockPieces(lines, i, End(lines, i)) + Document(lines, End(lines, i))
  }

  // ----- the renderer -----

  /** What the helpers write to. */
  class Builder {
    var pieces: seq<Piece>

    constructor ()
      ensures pieces == []
    {
      pieces := [];
    }

    method Write(more: seq<Piece>)
      modifies this
      ensures pieces == old(pieces) + more
    {
      pieces := pieces + more;
    }
  }

  method DropBlankEnd(lines: seq<string>) returns (code: seq<string>)
    ensures code == WithoutBlankEnd(lines)
  {
    code := lines;
    while |code| > 0 && Trim(code[|code| - 1]) == ""
      invariant WithoutBlankEnd(code) == WithoutBlankEnd(lines)
    {
      code := code[..|code| - 1];
    }
  }

  predicate IsFence(line: string) {
    "```" <= Trim(line)
  }

  lemma FenceIsBlock(lines: seq<string>, i: nat, j: nat)
    requires i < j <= |lines| && LineKind(lines[i]).Fence?
    requires forall k :: i < k < j - 1 ==> !IsFence(lines[k])
    requires j < |lines| ==> j > i + 1 && IsFence(lines[j - 1])
    ensures IsBlock(lines, i, j)
  {
  }

  lemma SliceOfSlice<T>(s: seq<T>, i: nat, j: nat, m: nat, n: nat)
    requires i <= j <= |s| && m <= n <= j - i
    ensures s[i..j][m..n] == s[i + m..i + n]
  {
    var a, b := s[i..j][m..n], s[i + m..i + n];
    assert |a| == |b|;
    forall k | 0 <= k < |a| ensures a[k] == b[k] {
      assert a[k] == s[i..j][m + k];
    }
  }

  lemma ClosedBody(lines: seq<string>, i: nat, j: nat)
    requires i + 1 < j <= |lines| && IsFence(lines[j - 1])
    ensures FenceBody(lines[i..j]) == lines[i + 1..j - 1]
  {
    assert |lines[i..j]| == j - i && lines[i..j][j - i - 1] == lines[j - 1];
    SliceOfSlice(lines, i, j, 1, j - i - 1);
  }

  lemma OpenBody(lines: seq<string>, i: nat)
    requires i < |lines| && (i + 1 < |lines| ==> !IsFence(lines[|lines| - 1]))
    ensures FenceBody(lines[i..]) == lines[i + 1..]
  {
    assert lines[i..][|lines[i..]| - 1] == lines[|lines| - 1];
  }

  method FenceEnd(lines: seq<string>, start: nat) returns (i: nat, code: seq<string>)
    requires start < |lines| && LineKind(lines[start]).Fence?
    ensures IsBlock(lines, start, i) && code == FenceBody(lines[start..i])
  {
    i, code := start + 1, [];
    while i < |lines|
      invariant start < i <= |lines| && code == lines[start + 1..i]
      invariant forall k :: start < k < i ==> !IsFence(lines[k])
    {
      if IsFence(lines[i]) {
        i := i + 1;
        ClosedBody(lines, start, i);
        FenceIsBlock(lines, start, i);
        return;
      }
      code := code + [lines[i]];
      i := i + 1;
    }
    FenceIsBlock(lines, start, i);
    assert lines[start..i] == lines[start..] && lines[start + 1..i] == lines[start + 1..];
    OpenBody(lines, start);
  }

  method RenderFence(b: Builder, lines: seq<string>, start: nat) returns (i: nat)
    requires start < |lines| && LineKind(lines[start]).Fence?
    modifies b
    ensures IsBlock(lines, start, i) && b.pieces == old(b.pieces) + FencePieces(lines[start..i])
  {
    var code;
    i, code := FenceEnd(lines, start);
    code := DropBlankEnd(code);
    b.Write([Open(Pre), Open(Code)]);
    b.Write([Verbatim(Join(code, "\n"))]);
    b.Write([Close(Code), Close(Pre), Break]);
  }

  method PeekListItem(lines: seq<string>, start: nat, itemText: string -> string) returns (next: bool)
    ensures next == NextIsItem(itemText, lines, start)
  {
    var i := start;
    while i < |lines|
      invariant NextIsItem(itemText, lines, i) == NextIsItem(itemText, lines, start)
    {
      var trimmed := Trim(lines[i]);
      if trimmed != "" {
        return itemText(trimmed) != "";
      }
      i := i + 1;
    }
    next := false;
  }

  function One(item: string): seq<string> {
    if item == "" then [] else [item]
  }

  lemma QuoteIsBlock(lines: seq<string>, i: nat, j: nat)
    requires i < j <= |lines| && LineKind(lines[i]).Quote?
    requires forall k :: i <= k < j ==> ">" <= Trim(lines[k])
    requires j < |lines| ==> !(">" <= Trim(lines[j]))
    ensures IsBlock(lines, i, j)
  {
  }

  lemma QuoteTextsNext(lines: seq<string>, start: nat, i: nat)
    requires start <= i < |lines|
    ensures QuoteTexts(lines[start..i + 1]) == QuoteTexts(lines[start..i]) + [QuoteText(lines[i])]
  {
  }

  method QuoteEnd(lines: seq<string>, start: nat) returns (i: nat, parts: seq<string>)
    requires start < |lines| && LineKind(lines[start]).Quote?
    ensures IsBlock(lines, start, i) && parts == QuoteTexts(lines[start..i])
  {
    i, parts := start, [];
    while i < |lines|
      invariant start <= i <= |lines| && parts == QuoteTexts(lines[start..i])
      invariant forall k :: start <= k < i ==> ">" <= Trim(lines[k])
    {
      if !(">" <= Trim(lines[i])) {
        break;
      }
      QuoteTextsNext(lines, start, i);
      parts := parts + [QuoteText(lines[i])];
      i := i + 1;
    }
    QuoteIsBlock(lines, start, i);
  }

  method RenderQuote(b: Builder, lines: seq<string>, start: nat) returns (i: nat)
    requires start < |lines| && LineKind(lines[start]).Quote?
    modifies b
    ensures IsBlock(lines, start, i) && b.pieces == old(b.pieces) + QuotePieces(lines[start..i])
  {
    var parts;
    i, parts := QuoteEnd(lines, start);
    b.Write([Open(Blockquote), Open(P)]);
    b.Write([Styled(Join(parts, " "))]);
    b.Write([Close(P), Close(Blockquote), Break]);
  }

  /** What ends a paragraph: exactly what the renderer's switch would not give to the paragraph helper. */
  predicate EndsParagraph(s: string)
    ensures EndsParagraph(s) <==> !KindOf(s).Plain?
  {
    || s == "" || HeadingLevel(s) > 0 || "```" <= s || IsRule(s) || BulletText(s) != "" || OrderedText(s) != ""
    || ">" <= s
  }

  lemma ParagraphIsBlock(lines: seq<string>, i: nat, j: nat)
    requires i < j <= |lines|
    requires forall k :: i <= k < j ==> LineKind(lines[k]).Plain?
    requires j < |lines| ==> !LineKind(lines[j]).Plain?
    ensures IsBlock(lines, i, j)
  {
  }

  lemma TrimmedNext(lines: seq<string>, start: nat, i: nat)
    requires start <= i < |lines|
    ensures Trimmed(lines[start..i + 1]) == Trimmed(lines[start..i]) + [Trim(lines[i])]
  {
  }

  method ParagraphEnd(lines: seq<string>, start: nat) returns (i: nat, parts: seq<string>)
    requires start < |lines| && LineKind(lines[start]).Plain?
    ensures IsBlock(lines, start, i) && parts == Trimmed(lines[start..i])
  {
    i, parts := start, [];
    while i < |lines|
      invariant start <= i <= |lines| && parts == Trimmed(lines[start..i])
      invariant forall k :: start <= k < i ==> LineKind(lines[k]).Plain?
    {
      if EndsParagraph(Trim(lines[i])) {
        break;
      }
      TrimmedNext(lines, start, i);
      parts := parts + [Trim(lines[i])];
      i := i + 1;
    }
    ParagraphIsBlock(lines, start, i);
  }

  method RenderParagraph(b: Builder, lines: seq<string>, start: nat) returns (i: nat)
    requires start < |lines| && LineKind(lines[start]).Plain?
    modifies b
    ensures IsBlock(lines, start, i) && b.pieces == old(b.pieces) + ParagraphPieces(lines[start..i])
  {
    var parts;
    i, parts := ParagraphEnd(lines, start);
    b.Write([Open(P)]);
    b.Write([Styled(Join(parts, " "))]);
    b.Write([Close(P), Break]);
  }

  // ----- lists -----

  /** The items of the lines so far are the flushed ones and the one still open. */
  ghost predicate Collected(itemText: string -> string, block: seq<string>, flushed: seq<string>, item: string) {
    && Items(itemText, block) == flushed + One(item)
    && (item == "" <==> block == []) && (block == [] ==> flushed == [])
  }

  lemma CollectLine(itemText: string -> string, block: seq<string>, line: string, flushed: seq<string>, item: string)
    requires Collected(itemText, block, flushed, item)
    ensures
      var t := Trim(line);
      if itemText(t) != "" then Collected(itemText, block + [line], flushed + One(item), itemText(t))
      else item != "" ==> Collected(itemText, block + [line], flushed, if t == "" then item else item + " " + t)
  {
    assert (block + [line])[..|block|] == block;
    var before := Items(itemText, block);
    if item != "" {
      assert before[..|before| - 1] == flushed && before[|before| - 1] == item;
    }
  }

  method FlushItem(b: Builder, item: string, ghost before: seq<Piece>, ghost flushed: seq<string>)
    requires b.pieces == before + ItemPieces(flushed)
    modifies b
    ensures b.pieces == before + ItemPieces(flushed + One(item))
  {
    if item != "" {
      assert (flushed + [item])[..|flushed|] == flushed;
      var piece := [Open(Li), Styled(item), Close(Li), Break];
      Assoc(before, ItemPieces(flushed), piece);
      b.Write(piece);
    } else {
      assert flushed + One(item) == flushed;
    }
  }

  predicate AllInList(itemText: string -> string, lines: seq<string>, i: nat, j: nat)
    requires i <= j <= |lines|
    decreases j
  {
    i == j || (AllInList(itemText, lines, i, j - 1) && InList(itemText, lines, j - 1))
  }

  lemma {:induction false} InListAt(itemText: string -> string, lines: seq<string>, i: nat, j: nat, k: nat)
    requires i <= k < j <= |lines| && AllInList(itemText, lines, i, j)
    ensures InList(itemText, lines, k)
    decreases j
  {
    if k < j - 1 {
      InListAt(itemText, lines, i, j - 1, k);
    }
  }

  lemma ListIsBlock(lines: seq<string>, i: nat, j: nat, itemText: string -> string)
    requires i < j <= |lines|
    requires
      || (LineKind(lines[i]).Bullet? && itemText == BulletText)
      || (LineKind(lines[i]).Number? && itemText == OrderedText)
    requires AllInList(itemText, lines, i, j)
    requires j < |lines| ==> !InList(itemText, lines, j)
    ensures IsBlock(lines, i, j)
  {
    forall k | i < k < j ensures Continues(lines, i, k) {
      InListAt(itemText, lines, i, j, k);
    }
  }

  method RenderList(b: Builder, lines: seq<string>, start: nat, ordered: bool, itemText: string -> string)
    returns (i: nat)
    requires start < |lines| && LineKind(lines[start]) == if ordered then Number else Bullet
    requires itemText == if ordered then OrderedText else BulletText
    modifies b
    ensures IsBlock(lines, start, i)
    ensures b.pieces == old(b.pieces) + ListPieces(itemText, ordered, lines[start..i])
  {
    var tag := ListTag(ordered, lines[start]);
    b.Write([Open(tag), Break]);
    i := RenderItems(b, lines, start, itemText);
    b.Write([Close(tag), Break]);
    ListIsBlock(lines, start, i, itemText);
    ghost var items := ItemPieces(Items(itemText, lines[start..i]));
    Assoc(old(b.pieces), [Open(tag), Break], items);
    Assoc(old(b.pieces), [Open(tag), Break] + items, [Close(tag), Break]);
  }

  /** What the list loop knows in front of line i. */
  ghost predicate ListState(
    lines: seq<string>, start: nat, i: nat, itemText: string -> string, flushed: seq<string>, item: string)
  {
    && start <= i <= |lines| && Collected(itemText, lines[start..i], flushed, item)
    && AllInList(itemText, lines, start, i)
  }

  lemma ListItem(
    lines: seq<string>, start: nat, i: nat, itemText: string -> string, flushed: seq<string>, item: string)
    requires ListState(lines, start, i, itemText, flushed, item) && i < |lines| && itemText(Trim(lines[i])) != ""
    ensures ListState(lines, start, i + 1, itemText, flushed + One(item), itemText(Trim(lines[i])))
  {
    SliceNext(lines, start, i);
    CollectLine(itemText, lines[start..i], lines[i], flushed, item);
  }

  lemma ListBlank(
    lines: seq<string>, start: nat, i: nat, itemText: string -> string, flushed: seq<string>, item: string)
    requires ListState(lines, start, i, itemText, flushed, item) && i < |lines| && item != ""
    requires itemText(Trim(lines[i])) == "" && Trim(lines[i]) == "" && NextIsItem(itemText, lines, i + 1)
    ensures ListState(lines, start, i + 1, itemText, flushed, item)
  {
    SliceNext(lines, start, i);
    CollectLine(itemText, lines[start..i], lines[i], flushed, item);
  }

  lemma ListMore(
    lines: seq<string>, start: nat, i: nat, itemText: string -> string, flushed: seq<string>, item: string)
    requires ListState(lines, start, i, itemText, flushed, item) && i < |lines| && item != ""
    requires itemText(Trim(lines[i])) == "" && Trim(lines[i]) != "" && "  " <= lines[i]
    ensures ListState(lines, start, i + 1, itemText, flushed, item + " " + Trim(lines[i]))
  {
    SliceNext(lines, start, i);
    CollectLine(itemText, lines[start..i], lines[i], flushed, item);
  }

  /** What the list loop does with line i: whether the line stays in the list, and the item then open. */
  method ItemLine(
    b: Builder, lines: seq<string>, ghost start: nat, i: nat, itemText: string -> string, item: string,
    ghost before: seq<Piece>, ghost flushed: seq<string>)
    returns (stays: bool, open: string, ghost nowFlushed: seq<string>)
    requires i < |lines| && ListState(lines, start, i, itemText, flushed, item)
    requires item == "" ==> itemText(Trim(lines[i])) != ""
    requires b.pieces == before + ItemPieces(flushed)
    modifies b
    ensures stays == InList(itemText, lines, i)
    ensures b.pieces == before + ItemPieces(nowFlushed)
    ensures ListState(lines, start, if stays then i + 1 else i, itemText, nowFlushed, open)
    ensures stays ==> open != ""
  {
    stays, open, nowFlushed := true, item, flushed;
    var trimmed := Trim(lines[i]);
    var text := itemText(trimmed);
    if text != "" {
      ListItem(lines, start, i, itemText, flushed, item);
      FlushItem(b, item, before, flushed);
      nowFlushed, open := flushed + One(item), text;
    } else if trimmed == "" {
      stays := PeekListItem(lines, i + 1, itemText);
      if stays {
        ListBlank(lines, start, i, itemText, flushed, item);
      }
    } else if "  " <= lines[i] && item != "" {
      ListMore(lines, start, i, itemText, flushed, item);
      open := item + " " + trimmed;
    } else {
      stays := false;
    }
  }

  method RenderItems(b: Builder, lines: seq<string>, start: nat, itemText: string -> string) returns (i: nat)
    requires start < |lines| && itemText(Trim(lines[start])) != ""
    modifies b
    ensures start < i <= |lines| && AllInList(itemText, lines, start, i)
    ensures i < |lines| ==> !InList(itemText, lines, i)
    ensures b.pieces == old(b.pieces) + ItemPieces(Items(itemText, lines[start..i]))
  {
    var item, stays := "", true;
    i := start;
    ghost var flushed: seq<string> := [];
    while i < |lines| && stays
      invariant ListState(lines, start, i, itemText, flushed, item) && (item == "" <==> i == start)
      invariant b.pieces == old(b.pieces) + ItemPieces(flushed)
      invariant stays || (start < i < |lines| && !InList(itemText, lines, i))
      decreases |lines| - i, stays
    {
      stays, item, flushed := ItemLine(b, lines, start, i, itemText, item, old(b.pieces), flushed);
      if stays {
        i := i + 1;
      }
    }
    FlushItem(b, item, old(b.pieces), flushed);
  }

  // ----- the document -----

  lemma OneLineBlock(lines: seq<string>, start: nat)
    requires start < |lines|
    requires LineKind(lines[start]).Blank? || LineKind(lines[start]).Heading? || LineKind(lines[start]).Rule?
    ensures IsBlock(lines, start, start + 1)
  {
  }

  /** The blocks of one line. */
  method RenderOneLine(b: Builder, lines: seq<string>, start: nat)
    requires start < |lines|
    requires LineKind(lines[start]).Blank? || LineKind(lines[start]).Heading? || LineKind(lines[start]).Rule?
    modifies b
    ensures IsBlock(lines, start, start + 1) && b.pieces == old(b.pieces) + BlockPieces(lines, start, start + 1)
  {
    var trimmed := Trim(lines[start]);
    OneLineBlock(lines, start);
    if trimmed == "" {
    } else if HeadingLevel(trimmed) > 0 {
      b.Write(HeadingPieces(trimmed));
    } else {
      b.Write([Hr, Break]);
    }
  }

  /** What the switch of the renderer's loop does with the block of line start. */
  method RenderBlock(b: Builder, lines: seq<string>, start: nat) returns (i: nat)
    requires start < |lines|
    modifies b
    ensures IsBlock(lines, start, i) && b.pieces == old(b.pieces) + BlockPieces(lines, start, i)
  {
    var trimmed := Trim(lines[start]);
    i := start + 1;
    if trimmed == "" {
      RenderOneLine(b, lines, start);
    } else if "```" <= trimmed {
      i := RenderFence(b, lines, start);
    } else if HeadingLevel(trimmed) > 0 || IsRule(trimmed) {
      RenderOneLine(b, lines, start);
    } else if BulletText(trimmed) != "" {
      i := RenderList(b, lines, start, false, BulletText);
    } else if OrderedText(trimmed) != "" {
      i := RenderList(b, lines, start, true, OrderedText);
    } else if ">" <= trimmed {
      i := RenderQuote(b, lines, start);
    } else {
      i := RenderParagraph(b, lines, start);
    }
  }

  /** The loop of the renderer ends because every helper takes at least the line that selected it. */
  method RenderMarkdown(b: Builder, lines: seq<string>)
    modifies b
    ensures b.pieces == old(b.pieces) + Document(lines, 0)
  {
    var i := 0;
    while i < |lines|
      invariant i <= |lines|
      invariant b.pieces + Document(lines, i) == old(b.pieces) + Document(lines, 0)
    {
      ghost var written := b.pieces;
      var next := RenderBlock(b, lines, i);
      BlockUnique(lines, i, next);
      Assoc(written, BlockPieces(lines, i, next), Document(lines, next));
      i := next;
    }
    assert b.pieces + [] == b.pieces;
  }
}
