/**
 * Turning the reply of a model into Responses items.  The items come back as part of the next
 * input, so the translation of replies and that of inputs must undo each other.
 */
module Reply {
  import opened Text
  import opened Json

  datatype Item =
    | MessageItem(id: string, text: string)
    | CallItem(id: string, callId: string, name: string, arguments: string)

  /** An item with the position that the stream writer uses; the response itself omits it. */
  datatype OutputItem = OutputItem(outputIndex: nat, item: Item)

  datatype Response = Response(status: string, output: seq<Item>, outputText: string)

  /** Random hexadecimal strings: for item ids and for missing call ids, by output index. */
  datatype Random = Random(item: nat -> string, call: nat -> string)

  function CallId(random: Random, given: string, k: nat): string {
    if given == "" then "call_" + random.call(k) else given
  }

  function NameOr(name: string): string {
    if name == "" then "tool" else name
  }

  /** The item made of a block of an Anthropic reply. */
  function BlockItem(codec: Codec<string>, random: Random, block: Json, k: nat): Option<Item> {
    if !block.Obj? then None
    else
      var kind := AsText(Get(block.fields, "type"));
      if kind == "text" then Some(MessageItem("msg_" + random.item(k), AsText(Get(block.fields, "text"))))
      else if kind == "tool_use" then
        Some(CallItem(
          "fc_" + random.item(k),
          CallId(random, AsText(Get(block.fields, "id")), k),
          NameOr(AsText(Get(block.fields, "name"))),
          codec.encode(Get(block.fields, "input"))))
      else None
  }

  /** The item made of a part of a Gemini reply. */
  function PartItem(codec: Codec<string>, random: Random, part: Json, k: nat): Option<Item> {
    if !part.Obj? then None
    else
      var text := AsText(Get(part.fields, "text"));
      if text != "" then Some(MessageItem("msg_" + random.item(k), text))
      else
        match Get(part.fields, "functionCall")
        case Obj(call) =>
          Some(CallItem(
            "fc_" + random.item(k),
            CallId(random, AsText(Get(call, "id")), k),
            NameOr(AsText(Get(call, "name"))),
            codec.encode(Get(call, "args"))))
        case _ => None
  }

  type Maker = (Json, nat) -> Option<Item>

  function BlockMaker(codec: Codec<string>, random: Random): Maker {
    (block: Json, k: nat) => BlockItem(codec, random, block, k)
  }

  function PartMaker(codec: Codec<string>, random: Random): Maker {
    (part: Json, k: nat) => PartItem(codec, random, part, k)
  }

  /** The items of a reply, numbered from k on; pieces without an item take no number. */
  function Items(make: Maker, pieces: seq<Json>, k: nat): seq<Item> {
    if pieces == [] then []
    else
      match make(pieces[0], k)
      case Some(item) => [item] + Items(make, pieces[1..], k + 1)
      case None => Items(make, pieces[1..], k)
  }

  lemma {:induction false} ItemsAppend(make: Maker, a: seq<Json>, b: seq<Json>, k: nat)
    ensures Items(make, a + b, k) == Items(make, a, k) + Items(make, b, k + |Items(make, a, k)|)
    decreases |a|
  {
    if a == [] {
      assert a + b == b;
    } else {
      assert (a + b)[1..] == a[1..] + b;
      match make(a[0], k)
      case Some(item) =>
        ItemsAppend(make, a[1..], b, k + 1);
        Assoc([item], Items(make, a[1..], k + 1), Items(make, b, k + |Items(make, a, k)|));
      case None =>
        ItemsAppend(make, a[1..], b, k);
    }
  }

  /** The item of one more piece goes to the end. */
  lemma ItemsStep(make: Maker, pieces: seq<Json>, i: nat)
    requires i < |pieces|
    ensures
      var before := Items(make, pieces[..i], 0);
      Items(make, pieces[..i + 1], 0)
      == match make(pieces[i], |before|)
         case Some(item) => before + [item]
         case None => before
  {
    var before := Items(make, pieces[..i], 0);
    assert pieces[..i + 1] == pieces[..i] + [pieces[i]];
    assert [pieces[i]][1..] == [];
    ItemsAppend(make, pieces[..i], [pieces[i]], 0);
    assert before + [] == before;
  }

  function Numbered(items: seq<Item>): (numbered: seq<OutputItem>)
    ensures |numbered| == |items|
    ensures forall k :: 0 <= k < |items| ==> numbered[k] == OutputItem(k, items[k])
  {
    seq(|items|, k requires 0 <= k < |items| => OutputItem(k, items[k]))
  }

  /** All texts of the message items, joined. */
  function OutputTexts(items: seq<Item>): string {
    if items == [] then ""
    else
      var last := items[|items| - 1];
      OutputTexts(items[..|items| - 1]) + if last.MessageItem? then last.text else ""
  }

  function ListAt(m: Object, key: string): seq<Json> {
    var j := Get(m, key);
    if j.Arr? then j.items else []
  }

  function ObjectAt(m: Object, key: string): Object {
    var j := Get(m, key);
    if j.Obj? then j.fields else map[]
  }

  function AnthropicStatus(stopReason: string): string {
    if stopReason == "max_tokens" then "incomplete"
    else if stopReason in {"refusal", "sensitive"} then "failed"
    else "completed"
  }

  function GeminiStatus(finishReason: string): string {
    if finishReason == "MAX_TOKENS" then "incomplete"
    else if finishReason in {"SAFETY", "RECITATION", "BLOCKLIST", "PROHIBITED_CONTENT", "SPII"} then "failed"
    else "completed"
  }

  function AnthropicItems(codec: Codec<string>, random: Random, content: seq<Json>): seq<Item> {
    Items(BlockMaker(codec, random), content, 0)
  }

  function GeminiItems(codec: Codec<string>, random: Random, parts: seq<Json>): seq<Item> {
    Items(PartMaker(codec, random), parts, 0)
  }

  method StripOutputIndexes(items: seq<OutputItem>) returns (stripped: seq<Item>)
    ensures |stripped| == |items| && forall k :: 0 <= k < |items| ==> stripped[k] == items[k].item
  {
    stripped := [];
    for i := 0 to |items|
      invariant |stripped| == i && forall k :: 0 <= k < i ==> stripped[k] == items[k].item
    {
      stripped := stripped + [items[i].item];
    }
  }

  lemma OneItemMore(items: seq<Item>, item: Item)
    ensures Numbered(items + [item]) == Numbered(items) + [OutputItem(|items|, item)]
    ensures OutputTexts(items + [item]) == OutputTexts(items) + if item.MessageItem? then item.text else ""
  {
    NumberedMore(items, item);
    assert (items + [item])[..|items|] == items;
  }

  lemma NumberedMore(items: seq<Item>, item: Item)
    ensures Numbered(items + [item]) == Numbered(items) + [OutputItem(|items|, item)]
  {
    var all, before := Numbered(items + [item]), Numbered(items);
    forall k | 0 <= k < |items| ensures all[k] == before[k] {
      assert (items + [item])[k] == items[k];
    }
    assert all[|items|] == OutputItem(|items|, (items + [item])[|items|]);
  }

  /** The loop both reply translators run over the pieces of a reply. */
  method CollectItems(make: Maker, pieces: seq<Json>) returns (outputItems: seq<OutputItem>, outputText: string)
    ensures outputItems == Numbered(Items(make, pieces, 0))
    ensures outputText == OutputTexts(Items(make, pieces, 0))
  {
    outputItems, outputText := [], "";
    var outputIndex := 0;
    for i := 0 to |pieces|
      invariant outputIndex == |outputItems|
      invariant outputItems == Numbered(Items(make, pieces[..i], 0))
      invariant outputText == OutputTexts(Items(make, pieces[..i], 0))
    {
      ghost var before := Items(make, pieces[..i], 0);
      ItemsStep(make, pieces, i);
      match make(pieces[i], outputIndex) {
        case Some(item) =>
          OneItemMore(before, item);
          if item.MessageItem? {
            outputText := outputText + item.text;
          }
          outputItems := outputItems + [OutputItem(outputIndex, item)];
          outputIndex := outputIndex + 1;
        case None =>
      }
    }
    assert pieces[..|pieces|] == pieces;
  }

  method AnthropicToResponsesResponse(codec: Codec<string>, random: Random, reply: Object)
    returns (response: Response, items: seq<OutputItem>)
    ensures items == Numbered(AnthropicItems(codec, random, ListAt(reply, "content")))
    ensures response.output == AnthropicItems(codec, random, ListAt(reply, "content"))
    ensures response.outputText == OutputTexts(response.output)
    ensures response.status == AnthropicStatus(AsText(Get(reply, "stop_reason")))
  {
    var outputText;
    items, outputText := CollectItems(BlockMaker(codec, random), ListAt(reply, "content"));
    var output := StripOutputIndexes(items);
    response := Response(AnthropicStatus(AsText(Get(reply, "stop_reason"))), output, outputText);
  }

  /** The first candidate of a Gemini reply; an empty object when there is none. */
  function Candidate(reply: Object): Object {
    var candidates := ListAt(reply, "candidates");
    if candidates != [] && candidates[0].Obj? then candidates[0].fields else map[]
  }

  method GeminiToResponsesResponse(codec: Codec<string>, random: Random, reply: Object)
    returns (response: Response, items: seq<OutputItem>)
    ensures
      var parts := ListAt(ObjectAt(Candidate(reply), "content"), "parts");
      && items == Numbered(GeminiItems(codec, random, parts))
      && response.output == GeminiItems(codec, random, parts)
    ensures response.outputText == OutputTexts(response.output)
    ensures response.status == GeminiStatus(AsText(Get(Candidate(reply), "finishReason")))
  {
    var outputText;
    var candidate := Candidate(reply);
    items, outputText := CollectItems(PartMaker(codec, random), ListAt(ObjectAt(candidate, "content"), "parts"));
    var output := StripOutputIndexes(items);
    response := Response(GeminiStatus(AsText(Get(candidate, "finishReason"))), output, outputText);
  }
}
