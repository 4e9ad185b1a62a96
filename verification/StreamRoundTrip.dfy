/**
 * A whole turn: a reply is translated and played back, a client folds the stream, and the list it ends
 * with is sent back as input, the reasoning item included.
 */
module StreamRoundTrip {
  import opened Text
  import opened Json
  import opened Translate
  import opened Reply
  import opened RoundTrip
  import opened Stream

  /** A finished item as the client puts it into the next input. */
  function ShapeWire(shape: Shape): Json {
    match shape
    case Reasoning(id) =>
      Obj(map[
        "id" := Str(id), "type" := Str("reasoning"), "summary" := Arr([]), "status" := Str("completed")])
    case MessageShape(id, content) =>
      Obj(map[
        "id" := Str(id), "type" := Str("message"), "status" := Str("completed"), "role" := Str("assistant"),
        "content" := Arr(seq(|content|, i requires 0 <= i < |content| => OutputTextPart(content[i])))])
    case CallShape(id, callId, name, arguments) =>
      Obj(map[
        "id" := Str(id), "type" := Str("function_call"), "call_id" := Str(callId), "name" := Str(name),
        "arguments" := Str(arguments), "status" := Str("completed")])
  }

  function ShapeWires(shapes: seq<Shape>): (wires: seq<Json>)
    ensures |wires| == |shapes|
  {
    seq(|shapes|, i requires 0 <= i < |shapes| => ShapeWire(shapes[i]))
  }

  function Sends(client: Option<Client>): Option<seq<Json>> {
    match client
    case None => None
    case Some(c) => Some(ShapeWires(c.finished))
  }

  /** What the client sends back when the stream fits together. */
  function ClientSends(response: Response, items: seq<Item>, reasoningId: string): Option<seq<Json>> {
    Sends(Fold(FRESH, Events(response, Numbered(items), reasoningId)))
  }

  lemma FinishedWire(item: Item)
    ensures ShapeWire(Finished(item)) == Wire(item)
  {
    if item.MessageItem? {
      var content := [item.text];
      assert seq(|content|, i requires 0 <= i < |content| => OutputTextPart(content[i])) == [OutputTextPart(item.text)];
    }
  }

  lemma FinishedWires(items: seq<Item>)
    ensures ShapeWires(FinishedAll(Numbered(items))) == Wires(items)
  {
    var shapes := FinishedAll(Numbered(items));
    forall i | 0 <= i < |items| ensures ShapeWires(shapes)[i] == Wires(items)[i] {
      FinishedWire(items[i]);
    }
  }

  function ItemsSent(items: seq<Item>, reasoningId: string): seq<Json> {
    (if AnyCall(items) then [ShapeWire(Reasoning(reasoningId))] else []) + Wires(items)
  }

  lemma ShapesSent(items: seq<Item>, reasoningId: string)
    ensures ShapeWires(StreamShapes(items, reasoningId)) == ItemsSent(items, reasoningId)
  {
    FinishedWires(items);
    var shapes := FinishedAll(Numbered(items));
    if AnyCall(items) {
      WiresBehind(Reasoning(reasoningId), shapes);
    } else {
      assert [] + shapes == shapes && [] + Wires(items) == Wires(items);
    }
  }

  /** The client sends the items themselves, behind a reasoning item if and only if some item is a call. */
  lemma ClientSendsItems(response: Response, items: seq<Item>, reasoningId: string)
    ensures ClientSends(response, items, reasoningId) == Some(ItemsSent(items, reasoningId))
  {
    ShapesSent(items, reasoningId);
    StreamRebuildsResponse(response, items, reasoningId);
  }

  lemma WiresBehind(first: Shape, shapes: seq<Shape>)
    ensures ShapeWires([first] + shapes) == [ShapeWire(first)] + ShapeWires(shapes)
  {
  }

  // ----- the reasoning item -----

  lemma ReasoningIsOther(id: string)
    ensures KindOf(ShapeWire(Reasoning(id)).fields) == Other
  {
  }

  lemma OtherIsSilent(codec: Codec<string>, item: Json)
    requires item.Obj? && KindOf(item.fields) == Other
    ensures ItemBlocks(codec, item) == (User, []) && ItemSystem(item) == []
    ensures forall names :: ItemParts(codec, names, item) == (User, []) && ItemName(names, item) == names
  {
  }

  lemma {:induction false} SystemBehind(item: Json, sent: seq<Json>)
    requires ItemSystem(item) == []
    ensures SystemTexts([item] + sent) == SystemTexts(sent)
  {
    if sent == [] {
      assert [item] + sent == [item] && [item][..0] == [];
    } else {
      var n := |sent| - 1;
      assert ([item] + sent)[..n + 1] == [item] + sent[..n] && ([item] + sent)[n + 1] == sent[n];
      SystemBehind(item, sent[..n]);
    }
  }

  lemma {:induction false} NamesBehind(item: Json, sent: seq<Json>)
    requires ItemName(map[], item) == map[]
    ensures NamesAfter([item] + sent) == NamesAfter(sent)
  {
    if sent == [] {
      assert [item] + sent == [item] && [item][..0] == [];
    } else {
      var n := |sent| - 1;
      assert ([item] + sent)[..n + 1] == [item] + sent[..n];
      NamesBehind(item, sent[..n]);
    }
  }

  lemma CollectedBehind<P>(role: Role, c: seq<(Role, seq<P>)>)
    ensures Collected([(role, [])] + c) == Collected(c)
  {
    var first: seq<(Role, seq<P>)> := [(role, [])];
    CollectedAppend(first, c);
    assert first[..0] == [] && Collected(first) == [];
    assert [] + Collected(c) == Collected(c);
  }

  lemma BlocksBehind(codec: Codec<string>, item: Json, sent: seq<Json>)
    requires ItemBlocks(codec, item) == (User, [])
    ensures AllBlocks(codec, [item] + sent) == AllBlocks(codec, sent)
  {
    ContributionsBehind(codec, item, sent);
    CollectedBehind(User, Contributions(codec, sent));
  }

  lemma ContributionsBehind(codec: Codec<string>, item: Json, sent: seq<Json>)
    ensures Contributions(codec, [item] + sent) == [ItemBlocks(codec, item)] + Contributions(codec, sent)
  {
  }

  lemma PartsBehind(codec: Codec<string>, item: Json, sent: seq<Json>)
    requires ItemName(map[], item) == map[] && ItemParts(codec, map[], item) == (User, [])
    ensures AllParts(codec, [item] + sent) == AllParts(codec, sent)
  {
    PartContributionsBehind(codec, item, sent);
    CollectedBehind(User, PartContributions(codec, sent));
  }

  lemma PartContributionsBehind(codec: Codec<string>, item: Json, sent: seq<Json>)
    requires ItemName(map[], item) == map[]
    ensures
      PartContributions(codec, [item] + sent) == [ItemParts(codec, map[], item)] + PartContributions(codec, sent)
  {
    var all := [item] + sent;
    forall i | 0 <= i < |sent| ensures PartContributions(codec, all)[i + 1] == PartContributions(codec, sent)[i] {
      PartBehind(codec, item, sent, i);
    }
    assert all[..0] == [];
  }

  lemma PartBehind(codec: Codec<string>, item: Json, sent: seq<Json>, i: nat)
    requires ItemName(map[], item) == map[] && i < |sent|
    ensures PartContributions(codec, [item] + sent)[i + 1] == PartContributions(codec, sent)[i]
  {
    assert ([item] + sent)[..i + 1] == [item] + sent[..i];
    NamesBehind(item, sent[..i]);
  }

  /** The reasoning item changes neither translation. */
  lemma ReasoningChangesNothing(codec: Codec<string>, id: string, sent: seq<Json>)
    ensures
      var more := [ShapeWire(Reasoning(id))] + sent;
      ToAnthropic(codec, Arr(more)) == ToAnthropic(codec, Arr(sent))
      && ToGemini(codec, Arr(more)) == ToGemini(codec, Arr(sent))
  {
    var item := ShapeWire(Reasoning(id));
    ReasoningIsOther(id);
    OtherIsSilent(codec, item);
    SystemBehind(item, sent);
    BlocksBehind(codec, item, sent);
    PartsBehind(codec, item, sent);
    SameInput(codec, [item] + sent, sent);
  }

  lemma SameInput(codec: Codec<string>, more: seq<Json>, sent: seq<Json>)
    requires AllBlocks(codec, more) == AllBlocks(codec, sent) && AllParts(codec, more) == AllParts(codec, sent)
    requires SystemTexts(more) == SystemTexts(sent)
    ensures ToAnthropic(codec, Arr(more)) == ToAnthropic(codec, Arr(sent))
    ensures ToGemini(codec, Arr(more)) == ToGemini(codec, Arr(sent))
  {
  }

  lemma ClientSendsSame(codec: Codec<string>, response: Response, items: seq<Item>, reasoningId: string)
    ensures
      var sent := ClientSends(response, items, reasoningId);
      && sent.Some?
      && ToAnthropic(codec, Arr(sent.value)) == ToAnthropic(codec, Arr(Wires(items)))
      && ToGemini(codec, Arr(sent.value)) == ToGemini(codec, Arr(Wires(items)))
  {
    ClientSendsItems(response, items, reasoningId);
    ReasoningChangesNothing(codec, reasoningId, Wires(items));
    assert [] + Wires(items) == Wires(items);
  }

  // ----- the whole turn -----

  /**
   * Played back, folded and sent back, a reply becomes one assistant message with exactly its blocks if and
   * only if it is not empty and all its blocks are non-blank text or complete tool calls.
   */
  lemma AnthropicTurn(
    codec: Codec<string>, random: Random, blocks: seq<Block>, response: Response, reasoningId: string)
    requires TextCodec(codec)
    ensures
      var items := AnthropicItems(codec, random, Jsons(BLOCK_PIECE, blocks));
      var sent := ClientSends(response, items, reasoningId);
      && sent.Some?
      && (ToAnthropic(codec, Arr(sent.value)) == Ok(AnthropicInput([], [Message(Assistant, blocks)]))
          <==> blocks != [] && forall i :: 0 <= i < |blocks| ==> GoodBlock(blocks[i]))
  {
    var items := AnthropicItems(codec, random, Jsons(BLOCK_PIECE, blocks));
    ClientSendsSame(codec, response, items, reasoningId);
    AnthropicRoundTrip(codec, random, blocks);
  }

  /** The same for Gemini. */
  lemma GeminiTurn(
    codec: Codec<string>, random: Random, parts: seq<Part>, response: Response, reasoningId: string)
    requires TextCodec(codec)
    ensures
      var items := GeminiItems(codec, random, Jsons(PART_PIECE, parts));
      var sent := ClientSends(response, items, reasoningId);
      && sent.Some?
      && (ToGemini(codec, Arr(sent.value)) == Ok(GeminiInput(None, [Message(Assistant, parts)]))
          <==> parts != [] && forall i :: 0 <= i < |parts| ==> GoodPart(parts[i]))
  {
    var items := GeminiItems(codec, random, Jsons(PART_PIECE, parts));
    ClientSendsSame(codec, response, items, reasoningId);
    GeminiRoundTrip(codec, random, parts);
  }
}
