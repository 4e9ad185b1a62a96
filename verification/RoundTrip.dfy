/**
 * Reply and history undo each other: the items made of a model's reply, sent back as input, become
 * the blocks of the reply again.
 */
module RoundTrip {
  import opened Text
  import opened Json
  import opened Translate
  import opened Reply

  /** A codec whose texts are never blank, as every JSON text. */
  ghost predicate TextCodec(codec: Codec<string>) {
    Faithful(codec) && forall j :: !Blank(codec.encode(j))
  }

  /** A Responses item as it stands in the output and in the next input. */
  function Wire(item: Item): Json {
    match item
    case MessageItem(id, text) =>
      Obj(map[
        "id" := Str(id), "type" := Str("message"), "status" := Str("completed"), "role" := Str("assistant"),
        "content" := Arr([OutputTextPart(text)])])
    case CallItem(id, callId, name, arguments) =>
      Obj(map[
        "id" := Str(id), "type" := Str("function_call"), "call_id" := Str(callId), "name" := Str(name),
        "arguments" := Str(arguments), "status" := Str("completed")])
  }

  function OutputTextPart(text: string): Json {
    Obj(map["type" := Str("output_text"), "text" := Str(text), "annotations" := Arr([])])
  }

  function Wires(items: seq<Item>): (wires: seq<Json>)
    ensures |wires| == |items|
  {
    seq(|items|, i requires 0 <= i < |items| => Wire(items[i]))
  }

  /** The blocks an item turns back into. */
  function BlocksBack(codec: Codec<string>, item: Item): seq<Block> {
    match item
    case MessageItem(_, text) => TextBlocks(Nonblank(text))
    case CallItem(_, callId, name, arguments) =>
      if callId == "" || name == "" then [] else [ToolUse(callId, name, Obj(ParseArgs(codec, Str(arguments))))]
  }

  function PartsBack(codec: Codec<string>, item: Item): seq<Part> {
    match item
    case MessageItem(_, text) => TextParts(Nonblank(text))
    case CallItem(_, _, name, arguments) =>
      if name == "" then [] else [FunctionCall(name, Obj(ParseArgs(codec, Str(arguments))))]
  }

  lemma WireTexts(text: string)
    ensures Texts(Arr([OutputTextPart(text)])) == Nonblank(text)
  {
    var parts := [OutputTextPart(text)];
    assert parts[..0] == [];
    assert AllPartTexts(parts[..0]) == [];
    assert PartTexts(parts[0]) == Nonblank(text);
    assert [] + Nonblank(text) == Nonblank(text);
  }

  lemma WireBack(codec: Codec<string>, names: Names, item: Item)
    ensures ItemBlocks(codec, Wire(item)) == (Assistant, BlocksBack(codec, item))
    ensures ItemParts(codec, names, Wire(item)) == (Assistant, PartsBack(codec, item))
    ensures ItemSystem(Wire(item)) == []
  {
    if item.MessageItem? {
      MessageBack(codec, names, item);
    } else {
      assert KindOf(Wire(item).fields) == Call;
    }
  }

  lemma MessageBack(codec: Codec<string>, names: Names, item: Item)
    requires item.MessageItem?
    ensures ItemBlocks(codec, Wire(item)) == (Assistant, BlocksBack(codec, item))
    ensures ItemParts(codec, names, Wire(item)) == (Assistant, PartsBack(codec, item))
    ensures ItemSystem(Wire(item)) == []
  {
    WireTexts(item.text);
    assert KindOf(Wire(item).fields) == Said(Assistant);
  }

  /** What a list of items turns back into. */
  function AllBack<P>(back: Item -> seq<P>, items: seq<Item>): seq<P> {
    if items == [] then [] else back(items[0]) + AllBack(back, items[1..])
  }

  lemma {:induction false} CollectedBack<P>(back: Item -> seq<P>, items: seq<Item>, c: seq<(Role, seq<P>)>)
    requires |c| == |items| && forall i :: 0 <= i < |items| ==> c[i] == (Assistant, back(items[i]))
    ensures Collected(c) == Tagged(Assistant, AllBack(back, items))
    decreases |items|
  {
    if items != [] {
      var n := |items| - 1;
      CollectedBack(back, items[..n], c[..n]);
      AllBackLast(back, items);
      TaggedAppend(Assistant, AllBack(back, items[..n]), back(items[n]));
    }
  }

  lemma {:induction false} AllBackLast<P>(back: Item -> seq<P>, items: seq<Item>)
    requires items != []
    ensures AllBack(back, items) == AllBack(back, items[..|items| - 1]) + back(items[|items| - 1])
  {
    var n := |items| - 1;
    if n == 0 {
      assert back(items[0]) + [] == back(items[0]) == [] + back(items[0]);
    } else {
      AllBackLast(back, items[1..]);
      assert items[1..][..n - 1] == items[..n][1..];
      Assoc(back(items[0]), AllBack(back, items[..n][1..]), back(items[n]));
    }
  }

  // ----- exactly which pieces return -----

  /** A piece of a reply as JSON, and whether it is one that returns unchanged. */
  datatype Piece<!P> = Piece(json: P -> Json, good: P -> bool)

  /** A good piece returns as itself, every other piece as something else or not at all. */
  ghost predicate ReturnsIffGood<P>(make: Maker, back: Item -> seq<P>, piece: Piece<P>, p: P, k: nat) {
    match make(piece.json(p), k)
    case None => !piece.good(p)
    case Some(item) => |back(item)| <= 1 && (piece.good(p) <==> back(item) == [p])
  }

  function Jsons<P>(piece: Piece<P>, ps: seq<P>): (jsons: seq<Json>)
    ensures |jsons| == |ps|
  {
    seq(|ps|, i requires 0 <= i < |ps| => piece.json(ps[i]))
  }

  lemma {:induction false} ReturnedIffAllGood<P(!new)>(
    make: Maker, back: Item -> seq<P>, piece: Piece<P>, ps: seq<P>, k: nat)
    requires forall p, j: nat :: ReturnsIffGood(make, back, piece, p, j)
    ensures
      var returned := AllBack(back, Items(make, Jsons(piece, ps), k));
      |returned| <= |ps| && (returned == ps <==> forall i :: 0 <= i < |ps| ==> piece.good(ps[i]))
    decreases |ps|
  {
    if ps != [] {
      var jsons := Jsons(piece, ps);
      assert jsons[1..] == Jsons(piece, ps[1..]);
      assert ReturnsIffGood(make, back, piece, ps[0], k);
      assert (forall i :: 0 <= i < |ps| ==> piece.good(ps[i]))
        <==> piece.good(ps[0]) && forall i :: 0 <= i < |ps[1..]| ==> piece.good(ps[1..][i]) by {
        assert ps == [ps[0]] + ps[1..];
      }
      match make(jsons[0], k)
      case None =>
        ReturnedIffAllGood(make, back, piece, ps[1..], k);
      case Some(item) =>
        ReturnedIffAllGood(make, back, piece, ps[1..], k + 1);
        var rest := AllBack(back, Items(make, jsons[1..], k + 1));
        assert ([item] + Items(make, jsons[1..], k + 1))[1..] == Items(make, jsons[1..], k + 1);
        ConsIff(back(item), rest, ps);
    }
  }

  lemma ConsIff<P>(first: seq<P>, rest: seq<P>, ps: seq<P>)
    requires |first| <= 1 && ps != [] && |rest| < |ps|
    ensures first + rest == ps <==> first == [ps[0]] && rest == ps[1..]
  {
    if first + rest == ps {
      assert |first| == 1;
      assert (first + rest)[1..] == rest;
    }
  }

  // ----- Anthropic -----

  function BlockJson(block: Block): Json {
    match block
    case Text(text) => Obj(map["type" := Str("text"), "text" := Str(text)])
    case ToolUse(id, name, input) =>
      Obj(map["type" := Str("tool_use"), "id" := Str(id), "name" := Str(name), "input" := input])
    case ToolResult(id, content) =>
      Obj(map["type" := Str("tool_result"), "tool_use_id" := Str(id), "content" := Str(content)])
  }

  /** A block that a model may reply and that survives: real text, or a complete tool call. */
  predicate GoodBlock(block: Block) {
    match block
    case Text(text) => !Blank(text)
    case ToolUse(id, name, input) => id != "" && name != "" && input.Obj?
    case ToolResult(_, _) => false
  }

  const BLOCK_PIECE := Piece(BlockJson, GoodBlock)

  function BlockBack(codec: Codec<string>): Item -> seq<Block> {
    (item: Item) => BlocksBack(codec, item)
  }

  lemma BlockReturns(codec: Codec<string>, random: Random, block: Block, k: nat)
    requires TextCodec(codec)
    ensures ReturnsIffGood(BlockMaker(codec, random), BlockBack(codec), BLOCK_PIECE, block, k)
  {
    if block.ToolUse? {
      assert codec.decode(codec.encode(block.input)) == Some(block.input);
      assert !Blank(codec.encode(block.input));
    }
  }

  /** The items of a reply as they are sent back. */
  function SentBack(codec: Codec<string>, random: Random, blocks: seq<Block>): seq<Json> {
    Wires(AnthropicItems(codec, random, Jsons(BLOCK_PIECE, blocks)))
  }

  lemma SentBackBlocks(codec: Codec<string>, random: Random, blocks: seq<Block>)
    ensures
      var items := AnthropicItems(codec, random, Jsons(BLOCK_PIECE, blocks));
      AllBlocks(codec, SentBack(codec, random, blocks)) == Tagged(Assistant, AllBack(BlockBack(codec), items))
    ensures SystemTexts(SentBack(codec, random, blocks)) == []
  {
    var items := AnthropicItems(codec, random, Jsons(BLOCK_PIECE, blocks));
    forall i | 0 <= i < |items|
      ensures Contributions(codec, Wires(items))[i] == (Assistant, BlockBack(codec)(items[i]))
      ensures ItemSystem(Wires(items)[i]) == []
    {
      WireBack(codec, map[], items[i]);
    }
    CollectedBack(BlockBack(codec), items, Contributions(codec, Wires(items)));
    NoSystem(Wires(items));
  }

  lemma {:induction false} NoSystem(items: seq<Json>)
    requires forall i :: 0 <= i < |items| ==> ItemSystem(items[i]) == []
    ensures SystemTexts(items) == []
  {
    if items != [] {
      NoSystem(items[..|items| - 1]);
    }
  }

  lemma GroupedOne<P>(role: Role, parts: seq<P>)
    ensures Grouped(Tagged(role, parts)) == if parts == [] then [] else [Message(role, parts)]
  {
    var nothing: seq<(Role, P)> := [];
    assert nothing + Tagged(role, parts) == Tagged(role, parts) && Grouped(nothing) == [];
    AppendGrouped(nothing, role, parts);
    AppendFirst(role, parts);
  }

  lemma AppendFirst<P>(role: Role, parts: seq<P>)
    ensures Append([], role, parts) == if parts == [] then [] else [Message(role, parts)]
  {
  }

  lemma OneAnthropicMessage(codec: Codec<string>, sent: seq<Json>, returned: seq<Block>)
    requires AllBlocks(codec, sent) == Tagged(Assistant, returned) && SystemTexts(sent) == []
    ensures
      ToAnthropic(codec, Arr(sent))
      == if returned == [] then Err(NO_MESSAGES) else Ok(AnthropicInput([], [Message(Assistant, returned)]))
  {
    OneOrNone(codec, sent, Grouped(AllBlocks(codec, sent)));
    GroupedOne(Assistant, returned);
  }

  lemma OneOrNone(codec: Codec<string>, sent: seq<Json>, messages: seq<Message<Block>>)
    requires messages == Grouped(AllBlocks(codec, sent)) && SystemTexts(sent) == []
    ensures
      ToAnthropic(codec, Arr(sent)) == if messages == [] then Err(NO_MESSAGES) else Ok(AnthropicInput([], messages))
  {
  }

  /**
   * A reply sent back as input becomes one assistant message with exactly the reply's blocks, if and
   * only if the reply is not empty and each of its blocks is non-blank text or a tool call with id,
   * name and an object as input.
   */
  lemma AnthropicRoundTrip(codec: Codec<string>, random: Random, blocks: seq<Block>)
    requires TextCodec(codec)
    ensures
      ToAnthropic(codec, Arr(SentBack(codec, random, blocks)))
      == Ok(AnthropicInput([], [Message(Assistant, blocks)]))
      <==> blocks != [] && forall i :: 0 <= i < |blocks| ==> GoodBlock(blocks[i])
  {
    var items := AnthropicItems(codec, random, Jsons(BLOCK_PIECE, blocks));
    SentBackBlocks(codec, random, blocks);
    OneAnthropicMessage(codec, SentBack(codec, random, blocks), AllBack(BlockBack(codec), items));
    forall p, k: nat ensures ReturnsIffGood(BlockMaker(codec, random), BlockBack(codec), BLOCK_PIECE, p, k) {
      BlockReturns(codec, random, p, k);
    }
    ReturnedIffAllGood(BlockMaker(codec, random), BlockBack(codec), BLOCK_PIECE, blocks, 0);
  }

  /** In a conversation, a good reply sent back extends the history by exactly its blocks. */
  lemma AnthropicNextTurn(codec: Codec<string>, random: Random, history: seq<Json>, blocks: seq<Block>)
    requires TextCodec(codec) && forall i :: 0 <= i < |blocks| ==> GoodBlock(blocks[i])
    ensures
      Grouped(AllBlocks(codec, history + SentBack(codec, random, blocks)))
      == Append(Grouped(AllBlocks(codec, history)), Assistant, blocks)
  {
    var sent := SentBack(codec, random, blocks);
    SentBackBlocks(codec, random, blocks);
    forall p, k: nat ensures ReturnsIffGood(BlockMaker(codec, random), BlockBack(codec), BLOCK_PIECE, p, k) {
      BlockReturns(codec, random, p, k);
    }
    ReturnedIffAllGood(BlockMaker(codec, random), BlockBack(codec), BLOCK_PIECE, blocks, 0);
    assert Contributions(codec, history + sent) == Contributions(codec, history) + Contributions(codec, sent);
    CollectedAppend(Contributions(codec, history), Contributions(codec, sent));
    AppendGrouped(AllBlocks(codec, history), Assistant, blocks);
  }

  lemma {:induction false} CollectedAppend<P>(a: seq<(Role, seq<P>)>, b: seq<(Role, seq<P>)>)
    ensures Collected(a + b) == Collected(a) + Collected(b)
    decreases |b|
  {
    if b == [] {
      assert a + b == a;
    } else {
      var n := |b| - 1;
      CollectedAppend(a, b[..n]);
      assert a + b == a + b[..n] + [b[n]];
      CollectedStep(a + b[..n], b[n].0, b[n].1);
      Assoc(Collected(a), Collected(b[..n]), Tagged(b[n].0, b[n].1));
    }
  }

  // ----- Gemini -----

  function PartJson(part: Part): Json {
    match part
    case TextPart(text) => Obj(map["text" := Str(text)])
    case FunctionCall(name, args) =>
      Obj(map["functionCall" := Obj(map["name" := Str(name), "args" := args])])
    case FunctionResponse(name, response) =>
      Obj(map["functionResponse" := Obj(map["name" := Str(name), "response" := response])])
  }

  predicate GoodPart(part: Part) {
    match part
    case TextPart(text) => !Blank(text)
    case FunctionCall(name, args) => name != "" && args.Obj?
    case FunctionResponse(_, _) => false
  }

  const PART_PIECE := Piece(PartJson, GoodPart)

  function PartBack(codec: Codec<string>): Item -> seq<Part> {
    (item: Item) => PartsBack(codec, item)
  }

  lemma PartReturns(codec: Codec<string>, random: Random, part: Part, k: nat)
    requires TextCodec(codec)
    ensures ReturnsIffGood(PartMaker(codec, random), PartBack(codec), PART_PIECE, part, k)
  {
    if part.FunctionCall? {
      assert codec.decode(codec.encode(part.args)) == Some(part.args);
      assert !Blank(codec.encode(part.args));
    }
  }

  function PartsSentBack(codec: Codec<string>, random: Random, parts: seq<Part>): seq<Json> {
    Wires(GeminiItems(codec, random, Jsons(PART_PIECE, parts)))
  }

  lemma SentBackParts(codec: Codec<string>, random: Random, parts: seq<Part>)
    ensures
      var items := GeminiItems(codec, random, Jsons(PART_PIECE, parts));
      AllParts(codec, PartsSentBack(codec, random, parts)) == Tagged(Assistant, AllBack(PartBack(codec), items))
    ensures SystemTexts(PartsSentBack(codec, random, parts)) == []
  {
    var items := GeminiItems(codec, random, Jsons(PART_PIECE, parts));
    forall i | 0 <= i < |items|
      ensures PartContributions(codec, Wires(items))[i] == (Assistant, PartBack(codec)(items[i]))
      ensures ItemSystem(Wires(items)[i]) == []
    {
      WireBack(codec, NamesAfter(Wires(items)[..i]), items[i]);
    }
    CollectedBack(PartBack(codec), items, PartContributions(codec, Wires(items)));
    NoSystem(Wires(items));
  }

  lemma OneGeminiContent(codec: Codec<string>, sent: seq<Json>, returned: seq<Part>)
    requires AllParts(codec, sent) == Tagged(Assistant, returned) && SystemTexts(sent) == []
    ensures
      ToGemini(codec, Arr(sent))
      == if returned == [] then Err(NO_MESSAGES) else Ok(GeminiInput(None, [Message(Assistant, returned)]))
  {
    GroupedOne(Assistant, returned);
  }

  /** The same for Gemini: parts return exactly when they are non-blank text or named calls on objects. */
  lemma GeminiRoundTrip(codec: Codec<string>, random: Random, parts: seq<Part>)
    requires TextCodec(codec)
    ensures
      ToGemini(codec, Arr(PartsSentBack(codec, random, parts)))
      == Ok(GeminiInput(None, [Message(Assistant, parts)]))
      <==> parts != [] && forall i :: 0 <= i < |parts| ==> GoodPart(parts[i])
  {
    var items := GeminiItems(codec, random, Jsons(PART_PIECE, parts));
    SentBackParts(codec, random, parts);
    OneGeminiContent(codec, PartsSentBack(codec, random, parts), AllBack(PartBack(codec), items));
    forall p, k: nat ensures ReturnsIffGood(PartMaker(codec, random), PartBack(codec), PART_PIECE, p, k) {
      PartReturns(codec, random, p, k);
    }
    ReturnedIffAllGood(PartMaker(codec, random), PartBack(codec), PART_PIECE, parts, 0);
  }
}
