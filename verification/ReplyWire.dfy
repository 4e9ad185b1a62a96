/**
 * The reply translators, seen from the wire: what one more piece of a reply adds to the output, and what the
 * status says, in terms of the raw fields.
 */
module ReplyWire {
  import opened Json
  import opened Reply
  import TranslateWire

  predicate FieldIs(json: Json, key: string, text: string) {
    TranslateWire.FieldIs(json, key, text)
  }

  function TextField(json: Json, key: string): string {
    TranslateWire.TextField(json, key)
  }

  function Field(json: Json, key: string): Json {
    TranslateWire.Field(json, key)
  }

  /** A call with the given id and name, or a made-up id and "tool", and with its arguments as JSON text. */
  predicate IsCallItem(codec: Codec<string>, random: Random, item: Item, k: nat, id: string, call: Json, args: string) {
    && item.CallItem? && item.id == "fc_" + random.item(k)
    && item.callId == (if id != "" then id else "call_" + random.call(k))
    && item.name == (if TextField(call, "name") != "" then TextField(call, "name") else "tool")
    && item.arguments == codec.encode(Field(call, args))
  }

  /** A text block adds a message with its text, a tool use adds a call, and any other block adds nothing. */
  lemma BlockAdds(codec: Codec<string>, random: Random, content: seq<Json>, block: Json)
    ensures
      var before := AnthropicItems(codec, random, content);
      var after := AnthropicItems(codec, random, content + [block]);
      if FieldIs(block, "type", "text") then
        after == before + [MessageItem("msg_" + random.item(|before|), TextField(block, "text"))]
      else if FieldIs(block, "type", "tool_use") then
        && |after| == |before| + 1 && after[..|before|] == before
        && IsCallItem(codec, random, after[|before|], |before|, TextField(block, "id"), block, "input")
      else
        after == before
  {
    PieceAdds(BlockMaker(codec, random), content, block);
  }

  /** A part with a text adds a message, one with a function call adds a call, and any other part adds nothing. */
  lemma PartAdds(codec: Codec<string>, random: Random, parts: seq<Json>, part: Json)
    ensures
      var before, after := GeminiItems(codec, random, parts), GeminiItems(codec, random, parts + [part]);
      var call := Field(part, "functionCall");
      if TextField(part, "text") != "" then
        after == before + [MessageItem("msg_" + random.item(|before|), TextField(part, "text"))]
      else if call.Obj? then
        && |after| == |before| + 1 && after[..|before|] == before
        && IsCallItem(codec, random, after[|before|], |before|, TextField(call, "id"), call, "args")
      else
        after == before
  {
    PieceAdds(PartMaker(codec, random), parts, part);
  }

  lemma PieceAdds(make: Maker, pieces: seq<Json>, piece: Json)
    ensures
      var before := Items(make, pieces, 0);
      var after := Items(make, pieces + [piece], 0);
      match make(piece, |before|)
      case Some(item) => after == before + [item] && |after| == |before| + 1 && after[..|before|] == before
      case None => after == before
  {
    var more := pieces + [piece];
    assert more[..|pieces|] == pieces && more[..|more|] == more;
    ItemsStep(make, more, |pieces|);
  }

  lemma NoPieces(codec: Codec<string>, random: Random)
    ensures AnthropicItems(codec, random, []) == [] == GeminiItems(codec, random, [])
  {
  }

  /** Three outcomes: cut off at the token limit, refused, and completed for every other reason or none. */
  lemma AnthropicStatusIs(reply: Json)
    requires reply.Obj?
    ensures
      AnthropicStatus(AsText(Get(reply.fields, "stop_reason")))
      == if FieldIs(reply, "stop_reason", "max_tokens") then "incomplete"
         else if FieldIs(reply, "stop_reason", "refusal") || FieldIs(reply, "stop_reason", "sensitive") then "failed"
         else "completed"
  {
  }

  predicate Blocked(candidate: Json) {
    || FieldIs(candidate, "finishReason", "SAFETY") || FieldIs(candidate, "finishReason", "RECITATION")
    || FieldIs(candidate, "finishReason", "BLOCKLIST") || FieldIs(candidate, "finishReason", "PROHIBITED_CONTENT")
    || FieldIs(candidate, "finishReason", "SPII")
  }

  /** Only the first candidate of a Gemini reply is looked at, and only when it is an object. */
  lemma GeminiStatusIs(reply: Object, candidate: Json)
    requires
      var list := Field(Obj(reply), "candidates");
      candidate == if list.Arr? && list.items != [] then list.items[0] else Null
    ensures
      GeminiStatus(AsText(Get(Candidate(reply), "finishReason")))
      == if FieldIs(candidate, "finishReason", "MAX_TOKENS") then "incomplete"
         else if Blocked(candidate) then "failed"
         else "completed"
    ensures
      var parts := Field(Field(candidate, "content"), "parts");
      ListAt(ObjectAt(Candidate(reply), "content"), "parts") == if parts.Arr? then parts.items else []
  {
  }

  /** The output text is the texts of the message items in a row. */
  lemma OutputTextGrows(items: seq<Item>, item: Item)
    ensures OutputTexts([]) == ""
    ensures OutputTexts(items + [item]) == OutputTexts(items) + if item.MessageItem? then item.text else ""
  {
    assert (items + [item])[..|items|] == items;
  }
}
