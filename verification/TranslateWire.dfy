/**
 * The input translators, seen from the wire: what one more item of an input adds to what is sent, said with
 * the raw fields of the item and the translators' results only.
 */
module TranslateWire {
  import opened Text
  import opened Json
  import opened Translate

  // ----- raw items -----

  predicate FieldIs(json: Json, key: string, text: string) {
    json.Obj? && key in json.fields && json.fields[key] == Str(text)
  }

  /** A text field, "" when it is missing or no text. */
  function TextField(json: Json, key: string): string {
    if json.Obj? && key in json.fields && json.fields[key].Str? then json.fields[key].s else ""
  }

  function Field(json: Json, key: string): Json {
    if json.Obj? && key in json.fields then json.fields[key] else Null
  }

  /** A system or developer message. */
  predicate Instructs(json: Json) {
    FieldIs(json, "role", "system") || FieldIs(json, "role", "developer")
  }

  predicate Speaks(json: Json, role: Role) {
    FieldIs(json, "role", if role == User then "user" else "assistant")
  }

  predicate IsMessage(json: Json) {
    Instructs(json) || Speaks(json, User) || Speaks(json, Assistant)
  }

  predicate IsCall(json: Json) {
    !IsMessage(json) && FieldIs(json, "type", "function_call")
  }

  predicate IsOutput(json: Json) {
    !IsMessage(json) && FieldIs(json, "type", "function_call_output")
  }

  lemma KindsAre(json: Json)
    ensures Instructs(json) <==> json.Obj? && KindOf(json.fields).System?
    ensures forall role :: Speaks(json, role) <==> json.Obj? && KindOf(json.fields) == Said(role)
    ensures IsCall(json) <==> json.Obj? && KindOf(json.fields).Call?
    ensures IsOutput(json) <==> json.Obj? && KindOf(json.fields).Output?
  {
  }

  /** A content part that carries a text: one of three kinds in its text field, a refusal in its own. */
  predicate Carries(part: Json, text: string) {
    && !Blank(text)
    && (((FieldIs(part, "type", "text") || FieldIs(part, "type", "input_text") || FieldIs(part, "type", "output_text"))
         && FieldIs(part, "text", text))
        || (FieldIs(part, "type", "refusal") && FieldIs(part, "refusal", text)))
  }

  lemma CarriedIs(part: Json)
    ensures forall text :: Carries(part, text) <==> PartTexts(part) == [text]
    ensures |PartTexts(part)| <= 1
  {
    BlankNothing();
  }

  lemma BlankNothing()
    ensures Blank("")
  {
  }

  /** A content is one text that is not blank, or parts of which each carries at most one text, in order. */
  lemma TextsAre(content: Json)
    ensures content.Str? ==> Texts(content) == if Blank(content.s) then [] else [content.s]
    ensures content == Arr([]) || !(content.Str? || content.Arr?) ==> Texts(content) == []
  {
  }

  lemma OnePartMore(parts: seq<Json>, part: Json)
    ensures forall text :: Carries(part, text) ==> Texts(Arr(parts + [part])) == Texts(Arr(parts)) + [text]
    ensures (forall text :: !Carries(part, text)) ==> Texts(Arr(parts + [part])) == Texts(Arr(parts))
  {
    CarriedIs(part);
    assert (parts + [part])[..|parts|] == parts;
    if PartTexts(part) != [] {
      assert Carries(part, PartTexts(part)[0]);
    }
  }

  /** The response of a function: JSON as it is or decoded from its text, and anything else as an output field. */
  predicate Responds(codec: Codec<string>, output: Json, response: Json) {
    match output
    case Obj(_) => response == output
    case Arr(_) => response == output
    case Str(text) =>
      if Blank(text) then response == Obj(map["output" := Str("")])
      else if codec.decode(text).Some? then Some(response) == codec.decode(text)
      else response == Obj(map["output" := output])
    case _ => response == Obj(map["output" := output])
  }

  lemma ParsedResponds(codec: Codec<string>, output: Json, response: Json)
    ensures Responds(codec, output, response) <==> response == ParseValue(codec, output)
  {
  }

  /** The arguments of a call: an object as it is or decoded from its text, and otherwise none. */
  predicate Passes(codec: Codec<string>, arguments: Json, args: Json) {
    if arguments.Obj? then args == arguments
    else if arguments.Str? && !Blank(arguments.s) && codec.decode(arguments.s).Some?
            && codec.decode(arguments.s).value.Obj? then Some(args) == codec.decode(arguments.s)
    else args == Obj(map[])
  }

  lemma ParsedPasses(codec: Codec<string>, arguments: Json, args: Json)
    ensures Passes(codec, arguments, args) <==> args == Obj(ParseArgs(codec, arguments))
  {
  }

  /** The text of a tool result: a text as it is, other JSON encoded, and a placeholder for white space. */
  predicate Shows(codec: Codec<string>, output: Json, content: string) {
    var text := if output.Str? && output.s != "" then output.s else codec.encode(output);
    content == if Blank(text) then "(empty)" else text
  }

  lemma OutputShows(codec: Codec<string>, output: Json, content: string)
    ensures Shows(codec, output, content) <==> content == OutputText(codec, output)
  {
  }

  // ----- what is sent -----

  /** All parts sent for an input, with their roles; none when there is nothing to send. */
  function GeminiTurns(codec: Codec<string>, items: seq<Json>): seq<(Role, Part)> {
    match ToGemini(codec, Arr(items))
    case Ok(r) => Flatten(r.contents)
    case Err(_) => []
  }

  function AnthropicTurns(codec: Codec<string>, items: seq<Json>): seq<(Role, Block)> {
    match ToAnthropic(codec, Arr(items))
    case Ok(r) => Flatten(r.messages)
    case Err(_) => []
  }

  /** The name of the latest call with this id, or "tool". */
  function CalledName(items: seq<Json>, id: string): string {
    var i := LatestCall(items, id);
    if i < 0 then "tool" else TextField(items[i], "name")
  }

  lemma CallsAre(json: Json, id: string)
    ensures
      Calls(json, id)
      <==> IsCall(json) && TextField(json, "name") != "" && id != "" && TextField(json, "call_id") == id
  {
    KindsAre(json);
  }

  lemma TurnsAre(codec: Codec<string>, items: seq<Json>)
    ensures GeminiTurns(codec, items) == AllParts(codec, items)
    ensures AnthropicTurns(codec, items) == AllBlocks(codec, items)
  {
    GeminiKeepsParts(codec, items);
    AnthropicKeepsParts(codec, items);
  }

  lemma ContributesLast(codec: Codec<string>, items: seq<Json>, item: Json)
    ensures
      PartContributions(codec, items + [item])
      == PartContributions(codec, items) + [ItemParts(codec, NamesAfter(items), item)]
  {
    FrontAndAll(items, item);
    ContributesOn(codec, items + [item], |items|, items, item);
  }

  lemma ContributesOn(codec: Codec<string>, more: seq<Json>, n: nat, items: seq<Json>, item: Json)
    requires n < |more| && more[..n] == items && more[..n + 1] == more && more[n] == item
    ensures
      PartContributions(codec, more)
      == PartContributions(codec, items) + [ItemParts(codec, NamesAfter(items), item)]
  {
    PartContributionsStep(codec, more, n);
  }

  lemma FrontAndAll<T>(s: seq<T>, last: T)
    ensures
      var more := s + [last];
      more[..|s|] == s && more[..|s| + 1] == more && more[|s|] == last
  {
  }

  lemma GeminiStep(codec: Codec<string>, items: seq<Json>, item: Json)
    ensures
      var (role, parts) := ItemParts(codec, NamesAfter(items), item);
      GeminiTurns(codec, items + [item]) == GeminiTurns(codec, items) + Tagged(role, parts)
  {
    var more := items + [item];
    var (role, parts) := ItemParts(codec, NamesAfter(items), item);
    ContributesLast(codec, items, item);
    CollectedStep(PartContributions(codec, items), role, parts);
    TurnsAre(codec, items);
    TurnsAre(codec, more);
  }

  lemma AnthropicStep(codec: Codec<string>, items: seq<Json>, item: Json)
    ensures
      var (role, blocks) := ItemBlocks(codec, item);
      AnthropicTurns(codec, items + [item]) == AnthropicTurns(codec, items) + Tagged(role, blocks)
  {
    var more := items + [item];
    var (role, blocks) := ItemBlocks(codec, item);
    assert Contributions(codec, more) == Contributions(codec, items) + [(role, blocks)];
    CollectedStep(Contributions(codec, items), role, blocks);
    TurnsAre(codec, items);
    TurnsAre(codec, more);
  }

  /** A user's or assistant's message adds its texts, one part each. */
  lemma MessageAdds(codec: Codec<string>, items: seq<Json>, item: Json, role: Role)
    requires Speaks(item, role)
    ensures
      var texts := Texts(Field(item, "content"));
      && AnthropicTurns(codec, items + [item]) == AnthropicTurns(codec, items) + Tagged(role, TextBlocks(texts))
      && GeminiTurns(codec, items + [item]) == GeminiTurns(codec, items) + Tagged(role, TextParts(texts))
  {
    KindsAre(item);
    AnthropicStep(codec, items, item);
    GeminiStep(codec, items, item);
  }

  /** Each of these parts is one of the texts as it is. */
  lemma MessageSent(codec: Codec<string>, items: seq<Json>, item: Json, role: Role, k: nat)
    requires Speaks(item, role) && k < |Texts(Field(item, "content"))|
    ensures
      var text, more := Texts(Field(item, "content"))[k], items + [item];
      var a, g := |AnthropicTurns(codec, items)| + k, |GeminiTurns(codec, items)| + k;
      && a < |AnthropicTurns(codec, more)| && AnthropicTurns(codec, more)[a] == (role, Text(text))
      && g < |GeminiTurns(codec, more)| && GeminiTurns(codec, more)[g] == (role, TextPart(text))
  {
    var texts := Texts(Field(item, "content"));
    MessageAdds(codec, items, item, role);
    AddedAt(AnthropicTurns(codec, items), Tagged(role, TextBlocks(texts)), k);
    AddedAt(GeminiTurns(codec, items), Tagged(role, TextParts(texts)), k);
  }

  lemma AddedAt<P>(before: seq<P>, added: seq<P>, k: nat)
    requires k < |added|
    ensures (before + added)[|before| + k] == added[k]
  {
  }

  /** System messages, and whatever is no message, no call and no output, add nothing. */
  lemma OthersAdd(codec: Codec<string>, items: seq<Json>, item: Json)
    requires Instructs(item) || !(IsMessage(item) || IsCall(item) || IsOutput(item))
    ensures AnthropicTurns(codec, items + [item]) == AnthropicTurns(codec, items)
    ensures GeminiTurns(codec, items + [item]) == GeminiTurns(codec, items)
  {
    KindsAre(item);
    AnthropicStep(codec, items, item);
    GeminiStep(codec, items, item);
  }

  lemma TaggedOne<P>(role: Role, part: P)
    ensures Tagged(role, [part]) == [(role, part)]
  {
  }

  /** A call adds one part of the assistant, with its name and arguments; Anthropic wants an id too, and keeps it. */
  lemma CallAdds(codec: Codec<string>, items: seq<Json>, item: Json, args: Json)
    requires IsCall(item) && Passes(codec, Field(item, "arguments"), args)
    ensures
      var id, name := TextField(item, "call_id"), TextField(item, "name");
      && AnthropicTurns(codec, items + [item])
         == AnthropicTurns(codec, items)
            + (if id == "" || name == "" then [] else [(Assistant, ToolUse(id, name, args))])
      && GeminiTurns(codec, items + [item])
         == GeminiTurns(codec, items) + (if name == "" then [] else [(Assistant, FunctionCall(name, args))])
  {
    KindsAre(item);
    ParsedPasses(codec, Field(item, "arguments"), args);
    AnthropicStep(codec, items, item);
    GeminiStep(codec, items, item);
    var id, name := TextField(item, "call_id"), TextField(item, "name");
    TaggedOne(Assistant, ToolUse(id, name, args));
    TaggedOne(Assistant, FunctionCall(name, args));
  }

  /** An output adds one function response of the user to Gemini's contents, under the name of the call it answers. */
  lemma ResponseAdds(codec: Codec<string>, items: seq<Json>, item: Json, response: Json)
    requires IsOutput(item) && Responds(codec, Field(item, "output"), response)
    ensures
      var name := CalledName(items, TextField(item, "call_id"));
      GeminiTurns(codec, items + [item]) == GeminiTurns(codec, items) + [(User, FunctionResponse(name, response))]
  {
    var id := TextField(item, "call_id");
    KindsAre(item);
    ParsedResponds(codec, Field(item, "output"), response);
    GeminiStep(codec, items, item);
    NameOfLatestCall(items, id);
    TaggedOne(User, FunctionResponse(CalledName(items, id), response));
  }

  /** An output with a call id adds one tool result of the user to Anthropic's messages; without one it adds nothing. */
  lemma ResultAdds(codec: Codec<string>, items: seq<Json>, item: Json, content: string)
    requires IsOutput(item) && Shows(codec, Field(item, "output"), content)
    ensures
      var id := TextField(item, "call_id");
      AnthropicTurns(codec, items + [item])
      == AnthropicTurns(codec, items) + if id == "" then [] else [(User, ToolResult(id, content))]
  {
    KindsAre(item);
    OutputShows(codec, Field(item, "output"), content);
    AnthropicStep(codec, items, item);
    TaggedOne(User, ToolResult(TextField(item, "call_id"), content));
  }

  // ----- the same by position -----

  lemma {:induction false} TurnsGrow(codec: Codec<string>, items: seq<Json>, i: nat)
    requires i <= |items|
    ensures GeminiTurns(codec, items[..i]) <= GeminiTurns(codec, items)
    ensures AnthropicTurns(codec, items[..i]) <= AnthropicTurns(codec, items)
    decreases |items| - i
  {
    if i == |items| {
      assert items[..i] == items;
    } else {
      assert items[..i + 1] == items[..i] + [items[i]];
      GeminiStep(codec, items[..i], items[i]);
      AnthropicStep(codec, items[..i], items[i]);
      TurnsGrow(codec, items, i + 1);
    }
  }

  lemma AddedStands<P>(before: seq<P>, part: P, after: seq<P>)
    requires before + [part] <= after
    ensures |before| < |after| && after[|before|] == part
  {
    assert (before + [part])[|before|] == part;
  }

  /**
   * In what is sent to Gemini, each output of the input stands behind what the items before it sent: a function
   * response with the decoded output, named after the latest call in front of it that has its call id.
   */
  lemma ResponseSent(codec: Codec<string>, items: seq<Json>, i: nat, response: Json)
    requires i < |items| && IsOutput(items[i]) && Responds(codec, Field(items[i], "output"), response)
    ensures
      var at, turns := |GeminiTurns(codec, items[..i])|, GeminiTurns(codec, items);
      var name := CalledName(items[..i], TextField(items[i], "call_id"));
      at < |turns| && turns[at] == (User, FunctionResponse(name, response))
  {
    var name := CalledName(items[..i], TextField(items[i], "call_id"));
    assert items[..i + 1] == items[..i] + [items[i]];
    ResponseAdds(codec, items[..i], items[i], response);
    TurnsGrow(codec, items, i + 1);
    AddedStands(GeminiTurns(codec, items[..i]), (User, FunctionResponse(name, response)), GeminiTurns(codec, items));
  }

  lemma ResultSent(codec: Codec<string>, items: seq<Json>, i: nat, content: string)
    requires i < |items| && IsOutput(items[i]) && Shows(codec, Field(items[i], "output"), content)
    requires TextField(items[i], "call_id") != ""
    ensures
      var at, turns := |AnthropicTurns(codec, items[..i])|, AnthropicTurns(codec, items);
      at < |turns| && turns[at] == (User, ToolResult(TextField(items[i], "call_id"), content))
  {
    var block := ToolResult(TextField(items[i], "call_id"), content);
    assert items[..i + 1] == items[..i] + [items[i]];
    ResultAdds(codec, items[..i], items[i], content);
    TurnsGrow(codec, items, i + 1);
    AddedStands(AnthropicTurns(codec, items[..i]), (User, block), AnthropicTurns(codec, items));
  }

  /** An output behind a named call with its id, and no later one, answers under the name of that call. */
  lemma AnswersItsCall(codec: Codec<string>, items: seq<Json>, j: nat, i: nat, id: string, response: Json)
    requires j < i < |items| && id != "" && IsCall(items[j]) && IsOutput(items[i])
    requires TextField(items[j], "call_id") == id == TextField(items[i], "call_id")
    requires TextField(items[j], "name") != ""
    requires forall k :: j < k < i && IsCall(items[k]) && TextField(items[k], "call_id") == id ==>
      TextField(items[k], "name") == ""
    requires Responds(codec, Field(items[i], "output"), response)
    ensures
      var at, turns := |GeminiTurns(codec, items[..i])|, GeminiTurns(codec, items);
      at < |turns| && turns[at] == (User, FunctionResponse(TextField(items[j], "name"), response))
  {
    ResponseSent(codec, items, i, response);
    LatestIs(items[..i], j, id);
  }

  lemma LatestIs(items: seq<Json>, j: nat, id: string)
    requires j < |items| && id != "" && IsCall(items[j]) && TextField(items[j], "call_id") == id
    requires TextField(items[j], "name") != ""
    requires forall k :: j < k < |items| && IsCall(items[k]) && TextField(items[k], "call_id") == id ==>
      TextField(items[k], "name") == ""
    ensures LatestCall(items, id) == j
  {
    var i := LatestCall(items, id);
    CallsAre(items[j], id);
    if i >= 0 {
      CallsAre(items[i], id);
    }
  }

  /** Without such a call the response is named "tool". */
  lemma NoCallNoName(items: seq<Json>, id: string)
    requires forall k :: 0 <= k < |items| && IsCall(items[k]) && TextField(items[k], "call_id") == id ==>
      id == "" || TextField(items[k], "name") == ""
    ensures CalledName(items, id) == "tool"
  {
    var i := LatestCall(items, id);
    if i >= 0 {
      CallsAre(items[i], id);
    }
  }

  // ----- system texts and errors -----

  lemma OneSystemMore(items: seq<Json>, item: Json)
    ensures
      SystemTexts(items + [item])
      == SystemTexts(items) + if Instructs(item) then Texts(Field(item, "content")) else []
  {
    assert (items + [item])[..|items|] == items;
    KindsAre(item);
  }

  /** The system texts stand in one instruction with an empty line between them. */
  lemma InstructionGrows(texts: seq<string>, text: string)
    ensures Join(texts + [text], "\n\n") == if texts == [] then text else Join(texts, "\n\n") + "\n\n" + text
  {
    assert (texts + [text])[..|texts|] == texts;
  }

  /** What the translators return beside the turns: the system texts, or why there is nothing to send. */
  lemma ResultsAre(codec: Codec<string>, input: Json)
    ensures
      match input
      case Arr(items) =>
        && (match ToAnthropic(codec, input)
            case Ok(r) => r.system == SystemTexts(items) && AnthropicTurns(codec, items) != []
            case Err(e) => e == "no usable messages in payload input" && AnthropicTurns(codec, items) == [])
        && (match ToGemini(codec, input)
            case Ok(r) =>
              && GeminiTurns(codec, items) != []
              && r.systemInstruction
                 == (if SystemTexts(items) == [] then None else Some(Join(SystemTexts(items), "\n\n")))
            case Err(e) => e == "no usable messages in payload input" && GeminiTurns(codec, items) == [])
      case Str(text) =>
        if Blank(text) then
          && ToAnthropic(codec, input) == Err("no usable messages in payload input")
          && ToGemini(codec, input) == Err("no usable messages in payload input")
        else
          && ToAnthropic(codec, input) == Ok(AnthropicInput([], [Message(User, [Text(text)])]))
          && ToGemini(codec, input) == Ok(GeminiInput(None, [Message(User, [TextPart(text)])]))
      case _ =>
        && ToAnthropic(codec, input) == Err("payload input must be string or array")
        && ToGemini(codec, input) == Err("payload input must be string or array")
  {
    if input.Arr? {
      AnthropicKeepsParts(codec, input.items);
      GeminiKeepsParts(codec, input.items);
      TurnsAre(codec, input.items);
    }
  }
}
