/**
 * Turning an OpenAI Responses input into the messages of Anthropic or the contents of Gemini.
 * Both join neighbouring parts of one role into one message.
 */
module Translate {
  import opened Text
  import opened Json

  datatype Result<+T> = Ok(value: T) | Err(error: string)

  /** Gemini calls the assistant "model". */
  datatype Role = User | Assistant

  datatype Message<+P> = Message(role: Role, parts: seq<P>)

  /** A content block of an Anthropic message. */
  datatype Block =
    | Text(text: string)
    | ToolResult(toolUseId: string, content: string)
    | ToolUse(id: string, name: string, input: Json)

  /** A part of a Gemini content. */
  datatype Part =
    | TextPart(text: string)
    | FunctionCall(callName: string, args: Json)
    | FunctionResponse(responseName: string, response: Json)

  const NO_MESSAGES := "no usable messages in payload input"
  const BAD_INPUT := "payload input must be string or array"

  // ----- the pieces of an input item -----

  function Nonblank(text: string): seq<string> {
    if Blank(text) then [] else [text]
  }

  /** The text of one content part; the part kinds that carry none give nothing. */
  function PartTexts(part: Json): seq<string> {
    if !part.Obj? then []
    else
      var kind := AsText(Get(part.fields, "type"));
      if kind in {"text", "input_text", "output_text"} then Nonblank(AsText(Get(part.fields, "text")))
      else if kind == "refusal" then Nonblank(AsText(Get(part.fields, "refusal")))
      else []
  }

  function AllPartTexts(parts: seq<Json>): seq<string> {
    if parts == [] then [] else AllPartTexts(parts[..|parts| - 1]) + PartTexts(parts[|parts| - 1])
  }

  /** The texts of a message's content. */
  function Texts(content: Json): seq<string> {
    match content
    case Str(text) => Nonblank(text)
    case Arr(parts) => AllPartTexts(parts)
    case _ => []
  }

  method AddPartText(blocks: seq<string>, part: Json) returns (blocks': seq<string>)
    ensures blocks' == blocks + PartTexts(part)
  {
    blocks' := blocks;
    if part.Obj? {
      var kind := AsText(Get(part.fields, "type"));
      if kind in {"text", "input_text", "output_text", "refusal"} {
        var text := AsText(Get(part.fields, if kind == "refusal" then "refusal" else "text"));
        if !Blank(text) {
          blocks' := blocks + [text];
        }
      }
    }
  }

  method TextBlocksFromOpenAIContent(content: Json) returns (blocks: seq<string>)
    ensures blocks == Texts(content)
  {
    blocks := [];
    match content {
      case Str(text) =>
        if !Blank(text) {
          blocks := blocks + [text];
        }
      case Arr(parts) =>
        for i := 0 to |parts|
          invariant blocks == AllPartTexts(parts[..i])
        {
          assert parts[..i + 1][..i] == parts[..i];
          blocks := AddPartText(blocks, parts[i]);
        }
        assert parts[..|parts|] == parts;
      case _ =>
    }
  }

  function ParseArgs(codec: Codec<string>, value: Json): Object {
    match value
    case Str(text) =>
      var decoded := codec.decode(text);
      if Blank(text) || decoded.None? || !decoded.value.Obj? then map[] else decoded.value.fields
    case Obj(fields) => fields
    case _ => map[]
  }

  function ParseValue(codec: Codec<string>, value: Json): Json {
    match value
    case Str(text) =>
      if Blank(text) then Obj(map["output" := Str("")])
      else
        (match codec.decode(text)
         case Some(j) => j
         case None => Obj(map["output" := value]))
    case Obj(_) => value
    case Arr(_) => value
    case _ => Obj(map["output" := value])
  }

  /** The text of a tool result: a non-empty string as it is, anything else as JSON. */
  function OutputText(codec: Codec<string>, output: Json): string {
    var text := if AsText(output) != "" then AsText(output) else codec.encode(output);
    if Blank(text) then "(empty)" else text
  }

  /** What kind of input item it is, in the order in which the translators ask. */
  datatype Kind = System | Said(role: Role) | Output | Call | Other

  function KindOf(item: Object): Kind {
    var role, kind := AsText(Get(item, "role")), AsText(Get(item, "type"));
    if role == "system" || role == "developer" then System
    else if role == "user" then Said(User)
    else if role == "assistant" then Said(Assistant)
    else if kind == "function_call_output" then Output
    else if kind == "function_call" then Call
    else Other
  }

  /** The system texts of one item. */
  function ItemSystem(json: Json): seq<string> {
    if json.Obj? && KindOf(json.fields).System? then Texts(Get(json.fields, "content")) else []
  }

  function SystemTexts(items: seq<Json>): seq<string> {
    if items == [] then [] else SystemTexts(items[..|items| - 1]) + ItemSystem(items[|items| - 1])
  }

  // ----- grouping -----

  function Tagged<P>(role: Role, parts: seq<P>): (tagged: seq<(Role, P)>)
    ensures |tagged| == |parts|
    ensures forall i :: 0 <= i < |parts| ==> tagged[i] == (role, parts[i])
  {
    seq(|parts|, i requires 0 <= i < |parts| => (role, parts[i]))
  }

  /** The parts of several contributions with their roles, in order. */
  function Collected<P>(contributions: seq<(Role, seq<P>)>): seq<(Role, P)> {
    if contributions == [] then []
    else
      var last := contributions[|contributions| - 1];
      Collected(contributions[..|contributions| - 1]) + Tagged(last.0, last.1)
  }

  lemma CollectedStep<P>(contributions: seq<(Role, seq<P>)>, role: Role, parts: seq<P>)
    ensures Collected(contributions + [(role, parts)]) == Collected(contributions) + Tagged(role, parts)
  {
    assert (contributions + [(role, parts)])[..|contributions|] == contributions;
  }

  /** Every part with its role, in order. */
  function Flatten<P>(messages: seq<Message<P>>): seq<(Role, P)> {
    if messages == [] then []
    else
      var last := messages[|messages| - 1];
      Flatten(messages[..|messages| - 1]) + Tagged(last.role, last.parts)
  }

  /** No message is empty, and no two neighbours have the same role. */
  ghost predicate Alternating<P>(messages: seq<Message<P>>) {
    && (forall i :: 0 <= i < |messages| ==> messages[i].parts != [])
    && (forall i :: 0 < i < |messages| ==> messages[i - 1].role != messages[i].role)
  }

  /** appendMessage: joins the last message when the role is the same. */
  function Append<P>(messages: seq<Message<P>>, role: Role, parts: seq<P>): seq<Message<P>> {
    var n := |messages|;
    if parts == [] then messages
    else if n > 0 && messages[n - 1].role == role then
      messages[..n - 1] + [Message(role, messages[n - 1].parts + parts)]
    else messages + [Message(role, parts)]
  }

  lemma TaggedAppend<P>(role: Role, a: seq<P>, b: seq<P>)
    ensures Tagged(role, a + b) == Tagged(role, a) + Tagged(role, b)
  {
  }

  lemma FlattenLast<P>(messages: seq<Message<P>>, last: Message<P>)
    ensures Flatten(messages + [last]) == Flatten(messages) + Tagged(last.role, last.parts)
  {
    assert (messages + [last])[..|messages|] == messages;
  }

  lemma AppendAlternates<P>(messages: seq<Message<P>>, role: Role, parts: seq<P>)
    requires Alternating(messages)
    ensures Alternating(Append(messages, role, parts))
  {
  }

  lemma AppendKeeps<P>(messages: seq<Message<P>>, role: Role, parts: seq<P>)
    requires Alternating(messages)
    ensures Alternating(Append(messages, role, parts))
    ensures Flatten(Append(messages, role, parts)) == Flatten(messages) + Tagged(role, parts)
  {
    AppendAlternates(messages, role, parts);
    AppendFlattens(messages, role, parts);
  }

  lemma AppendFlattens<P>(messages: seq<Message<P>>, role: Role, parts: seq<P>)
    ensures Flatten(Append(messages, role, parts)) == Flatten(messages) + Tagged(role, parts)
  {
    var n := |messages|;
    if parts != [] {
      if n > 0 && messages[n - 1].role == role {
        var init, last := messages[..n - 1], messages[n - 1];
        FlattenLast(init, Message(role, last.parts + parts));
        TaggedAppend(role, last.parts, parts);
        Assoc(Flatten(init), Tagged(role, last.parts), Tagged(role, parts));
      } else {
        FlattenLast(messages, Message(role, parts));
      }
    }
  }

  /** Puts tagged parts into messages one by one. */
  function Grouped<P>(tagged: seq<(Role, P)>): seq<Message<P>> {
    if tagged == [] then []
    else
      var last := tagged[|tagged| - 1];
      Append(Grouped(tagged[..|tagged| - 1]), last.0, [last.1])
  }

  /** Grouping loses nothing, keeps the order, and leaves no empty message and no equal neighbours. */
  lemma {:induction false} GroupedKeeps<P>(tagged: seq<(Role, P)>)
    ensures Alternating(Grouped(tagged)) && Flatten(Grouped(tagged)) == tagged
  {
    if tagged != [] {
      var init, last := tagged[..|tagged| - 1], tagged[|tagged| - 1];
      assert tagged == init + [last] && Tagged(last.0, [last.1]) == [last];
      GroupedKeeps(init);
      AppendKeeps(Grouped(init), last.0, [last.1]);
    }
  }

  lemma AppendTwice<P>(messages: seq<Message<P>>, role: Role, a: seq<P>, b: seq<P>)
    ensures Append(Append(messages, role, a), role, b) == Append(messages, role, a + b)
  {
    var n := |messages|;
    if a == [] {
      assert a + b == b;
    } else if b == [] {
      assert a + b == a;
    } else if n > 0 && messages[n - 1].role == role {
      Assoc(messages[n - 1].parts, a, b);
      assert Append(messages, role, a)[..n - 1] == messages[..n - 1];
    } else {
      assert (messages + [Message(role, a)])[..n] == messages;
    }
  }

  lemma GroupedStep<P>(tagged: seq<(Role, P)>, role: Role, part: P)
    ensures Grouped(tagged + [(role, part)]) == Append(Grouped(tagged), role, [part])
  {
    assert (tagged + [(role, part)])[..|tagged|] == tagged;
  }

  /** Appending several parts is appending them to what was grouped before. */
  lemma {:induction false} AppendGrouped<P>(tagged: seq<(Role, P)>, role: Role, parts: seq<P>)
    ensures Append(Grouped(tagged), role, parts) == Grouped(tagged + Tagged(role, parts))
    decreases |parts|
  {
    if parts == [] {
      assert tagged + Tagged(role, parts) == tagged;
    } else {
      var init, last := parts[..|parts| - 1], parts[|parts| - 1];
      assert parts == init + [last];
      assert Tagged(role, parts) == Tagged(role, init) + [(role, last)];
      Assoc(tagged, Tagged(role, init), [(role, last)]);
      AppendTwice(Grouped(tagged), role, init, [last]);
      GroupedStep(tagged + Tagged(role, init), role, last);
      AppendGrouped(tagged, role, init);
    }
  }

  lemma {:induction false} GroupedFlatten<P>(messages: seq<Message<P>>)
    requires Alternating(messages)
    ensures Grouped(Flatten(messages)) == messages
  {
    if messages != [] {
      var init, last := messages[..|messages| - 1], messages[|messages| - 1];
      assert Append(init, last.role, last.parts) == init + [last] == messages;
      AppendGrouped(Flatten(init), last.role, last.parts);
      GroupedFlatten(init);
    }
  }

  /** There is one way only to group parts into non-empty messages of alternating roles. */
  lemma GroupingUnique<P>(a: seq<Message<P>>, b: seq<Message<P>>)
    requires Alternating(a) && Alternating(b) && Flatten(a) == Flatten(b)
    ensures a == b
  {
    GroupedFlatten(a);
    GroupedFlatten(b);
  }

  // ----- the two translators -----

  /** TextBlock for every text. */
  function TextBlocks(texts: seq<string>): (blocks: seq<Block>)
    ensures |blocks| == |texts|
  {
    seq(|texts|, i requires 0 <= i < |texts| => Text(texts[i]))
  }

  function TextParts(texts: seq<string>): (parts: seq<Part>)
    ensures |parts| == |texts|
  {
    seq(|texts|, i requires 0 <= i < |texts| => TextPart(texts[i]))
  }

  /** The role and the blocks an input item contributes to Anthropic messages. */
  function ItemBlocks(codec: Codec<string>, json: Json): (Role, seq<Block>) {
    if !json.Obj? then (User, [])
    else
      var item := json.fields;
      var callId := AsText(Get(item, "call_id"));
      match KindOf(item)
      case Said(role) => (role, TextBlocks(Texts(Get(item, "content"))))
      case Output =>
        (User, if callId == "" then [] else [ToolResult(callId, OutputText(codec, Get(item, "output")))])
      case Call =>
        var name := AsText(Get(item, "name"));
        (Assistant,
         if callId == "" || name == "" then []
         else [ToolUse(callId, name, Obj(ParseArgs(codec, Get(item, "arguments"))))])
      case _ => (User, [])
  }

  /** What each item of an input contributes. */
  function Contributions(codec: Codec<string>, items: seq<Json>): (c: seq<(Role, seq<Block>)>)
    ensures |c| == |items|
  {
    seq(|items|, i requires 0 <= i < |items| => ItemBlocks(codec, items[i]))
  }

  /** All blocks of an input with their roles, in order. */
  function AllBlocks(codec: Codec<string>, items: seq<Json>): seq<(Role, Block)> {
    Collected(Contributions(codec, items))
  }

  datatype AnthropicInput = AnthropicInput(system: seq<string>, messages: seq<Message<Block>>)

  function ToAnthropic(codec: Codec<string>, input: Json): Result<AnthropicInput> {
    match input
    case Str(text) =>
      if Blank(text) then Err(NO_MESSAGES) else Ok(AnthropicInput([], [Message(User, [Text(text)])]))
    case Arr(items) =>
      var messages := Grouped(AllBlocks(codec, items));
      if messages == [] then Err(NO_MESSAGES) else Ok(AnthropicInput(SystemTexts(items), messages))
    case _ => Err(BAD_INPUT)
  }

  /** Appends what one item contributes. */
  method AddAnthropicItem(codec: Codec<string>, json: Json, system: seq<string>, messages: seq<Message<Block>>)
    returns (system': seq<string>, messages': seq<Message<Block>>)
    ensures system' == system + ItemSystem(json)
    ensures
      var (role, blocks) := ItemBlocks(codec, json);
      messages' == Append(messages, role, blocks)
  {
    system', messages' := system, messages;
    if !json.Obj? {
      return;
    }
    var item := json.fields;
    match KindOf(item) {
      case System =>
        var texts := TextBlocksFromOpenAIContent(Get(item, "content"));
        system' := system + texts;
      case Said(role) =>
        var texts := TextBlocksFromOpenAIContent(Get(item, "content"));
        messages' := Append(messages, role, TextBlocks(texts));
      case Output =>
        var callId := AsText(Get(item, "call_id"));
        if callId != "" {
          messages' := Append(messages, User, [ToolResult(callId, OutputText(codec, Get(item, "output")))]);
        }
      case Call =>
        var callId, name := AsText(Get(item, "call_id")), AsText(Get(item, "name"));
        if callId != "" && name != "" {
          var args := Obj(ParseArgs(codec, Get(item, "arguments")));
          messages' := Append(messages, Assistant, [ToolUse(callId, name, args)]);
        }
      case Other =>
    }
  }

  lemma OneMoreItem(codec: Codec<string>, items: seq<Json>, i: nat)
    requires i < |items|
    ensures
      var (role, blocks) := ItemBlocks(codec, items[i]);
      Append(Grouped(AllBlocks(codec, items[..i])), role, blocks) == Grouped(AllBlocks(codec, items[..i + 1]))
  {
    var (role, blocks) := ItemBlocks(codec, items[i]);
    assert Contributions(codec, items[..i + 1]) == Contributions(codec, items[..i]) + [(role, blocks)];
    CollectedStep(Contributions(codec, items[..i]), role, blocks);
    AppendGrouped(AllBlocks(codec, items[..i]), role, blocks);
  }

  method OpenAIInputToAnthropic(codec: Codec<string>, payloadInput: Json) returns (r: Result<AnthropicInput>)
    ensures r == ToAnthropic(codec, payloadInput)
  {
    var system: seq<string>, messages: seq<Message<Block>> := [], [];
    match payloadInput {
      case Str(text) =>
        if !Blank(text) {
          messages := [Message(User, [Text(text)])];
        }
      case Arr(items) =>
        for i := 0 to |items|
          invariant system == SystemTexts(items[..i])
          invariant messages == Grouped(AllBlocks(codec, items[..i]))
        {
          assert items[..i + 1][..i] == items[..i];
          OneMoreItem(codec, items, i);
          system, messages := AddAnthropicItem(codec, items[i], system, messages);
        }
        assert items[..|items|] == items;
      case _ =>
        return Err(BAD_INPUT);
    }
    if messages == [] {
      return Err(NO_MESSAGES);
    }
    r := Ok(AnthropicInput(system, messages));
  }

  type Names = map<string, string>

  /** A call with id and name is remembered. */
  function ItemName(names: Names, json: Json): Names {
    if !json.Obj? || !KindOf(json.fields).Call? then names
    else
      var callId, name := AsText(Get(json.fields, "call_id")), AsText(Get(json.fields, "name"));
      if callId == "" || name == "" then names else names[callId := name]
  }

  /** The name of the latest call with a given id. */
  function NamesAfter(items: seq<Json>): Names {
    if items == [] then map[] else ItemName(NamesAfter(items[..|items| - 1]), items[|items| - 1])
  }

  function ItemParts(codec: Codec<string>, names: Names, json: Json): (Role, seq<Part>) {
    if !json.Obj? then (User, [])
    else
      var item := json.fields;
      match KindOf(item)
      case Said(role) => (role, TextParts(Texts(Get(item, "content"))))
      case Output =>
        var callId := AsText(Get(item, "call_id"));
        var name := if callId in names then names[callId] else "tool";
        (User, [FunctionResponse(name, ParseValue(codec, Get(item, "output")))])
      case Call =>
        var name := AsText(Get(item, "name"));
        (Assistant, if name == "" then [] else [FunctionCall(name, Obj(ParseArgs(codec, Get(item, "arguments"))))])
      case _ => (User, [])
  }

  function PartContributions(codec: Codec<string>, items: seq<Json>): (c: seq<(Role, seq<Part>)>)
    ensures |c| == |items|
  {
    seq(|items|, i requires 0 <= i < |items| => ItemParts(codec, NamesAfter(items[..i]), items[i]))
  }

  function AllParts(codec: Codec<string>, items: seq<Json>): seq<(Role, Part)> {
    Collected(PartContributions(codec, items))
  }

  datatype GeminiInput = GeminiInput(systemInstruction: Option<string>, contents: seq<Message<Part>>)

  function ToGemini(codec: Codec<string>, input: Json): Result<GeminiInput> {
    match input
    case Str(text) =>
      if Blank(text) then Err(NO_MESSAGES) else Ok(GeminiInput(None, [Message(User, [TextPart(text)])]))
    case Arr(items) =>
      var contents := Grouped(AllParts(codec, items));
      var system := SystemTexts(items);
      if contents == [] then Err(NO_MESSAGES)
      else Ok(GeminiInput(if system == [] then None else Some(Join(system, "\n\n")), contents))
    case _ => Err(BAD_INPUT)
  }

  lemma {:induction false} TextsNonblank(content: Json)
    ensures forall text :: text in Texts(content) ==> !Blank(text)
  {
    if content.Arr? {
      PartTextsNonblank(content.items);
    }
  }

  lemma {:induction false} PartTextsNonblank(parts: seq<Json>)
    ensures forall text :: text in AllPartTexts(parts) ==> !Blank(text)
  {
    if parts != [] {
      PartTextsNonblank(parts[..|parts| - 1]);
    }
  }

  /** Appends the texts of a message one part at a time. */
  method AppendTexts(contents: seq<Message<Part>>, role: Role, content: Json) returns (r: seq<Message<Part>>)
    ensures r == Append(contents, role, TextParts(Texts(content)))
  {
    var texts := TextBlocksFromOpenAIContent(content);
    r := contents;
    TextsNonblank(content);
    for j := 0 to |texts|
      invariant r == Append(contents, role, TextParts(texts[..j]))
    {
      assert !Blank(texts[j]);
      if !Blank(texts[j]) {
        AppendTwice(contents, role, TextParts(texts[..j]), [TextPart(texts[j])]);
        assert TextParts(texts[..j + 1]) == TextParts(texts[..j]) + [TextPart(texts[j])];
        r := Append(r, role, [TextPart(texts[j])]);
      }
    }
    assert texts[..|texts|] == texts;
  }

  method AddGeminiItem(
    codec: Codec<string>, json: Json, system: seq<string>, names: Names, contents: seq<Message<Part>>)
    returns (system': seq<string>, names': Names, contents': seq<Message<Part>>)
    ensures system' == system + ItemSystem(json)
    ensures names' == ItemName(names, json)
    ensures
      var (role, parts) := ItemParts(codec, names, json);
      contents' == Append(contents, role, parts)
  {
    system', names', contents' := system, names, contents;
    if !json.Obj? {
      return;
    }
    var item := json.fields;
    var callId, name := AsText(Get(item, "call_id")), AsText(Get(item, "name"));
    match KindOf(item) {
      case System =>
        var texts := TextBlocksFromOpenAIContent(Get(item, "content"));
        system' := system + texts;
      case Said(role) =>
        contents' := AppendTexts(contents, role, Get(item, "content"));
      case Call =>
        if name != "" {
          var args := Obj(ParseArgs(codec, Get(item, "arguments")));
          contents' := Append(contents, Assistant, [FunctionCall(name, args)]);
          if callId != "" {
            names' := names[callId := name];
          }
        }
      case Output =>
        var output := ParseValue(codec, Get(item, "output"));
        var called := if callId in names then names[callId] else "tool";
        contents' := Append(contents, User, [FunctionResponse(called, output)]);
      case Other =>
    }
  }

  lemma OneMoreGeminiItem(codec: Codec<string>, items: seq<Json>, i: nat)
    requires i < |items|
    ensures
      var (role, parts) := ItemParts(codec, NamesAfter(items[..i]), items[i]);
      Append(Grouped(AllParts(codec, items[..i])), role, parts) == Grouped(AllParts(codec, items[..i + 1]))
  {
    var (role, parts) := ItemParts(codec, NamesAfter(items[..i]), items[i]);
    PartContributionsStep(codec, items, i);
    CollectedStep(PartContributions(codec, items[..i]), role, parts);
    AppendGrouped(AllParts(codec, items[..i]), role, parts);
  }

  lemma PartContributionsStep(codec: Codec<string>, items: seq<Json>, i: nat)
    requires i < |items|
    ensures
      PartContributions(codec, items[..i + 1])
      == PartContributions(codec, items[..i]) + [ItemParts(codec, NamesAfter(items[..i]), items[i])]
  {
    SameContributions(codec, items, i);
    SameContribution(codec, items, i + 1, i);
    OneLonger(PartContributions(codec, items[..i]), PartContributions(codec, items[..i + 1]));
  }

  lemma OneLonger<T>(before: seq<T>, after: seq<T>)
    requires |after| == |before| + 1 && forall j :: 0 <= j < |before| ==> after[j] == before[j]
    ensures after == before + [after[|before|]]
  {
  }

  lemma SameContributions(codec: Codec<string>, items: seq<Json>, i: nat)
    requires i < |items|
    ensures
      var before, after := PartContributions(codec, items[..i]), PartContributions(codec, items[..i + 1]);
      forall j :: 0 <= j < i ==> after[j] == before[j]
  {
    forall j | 0 <= j < i
      ensures PartContributions(codec, items[..i + 1])[j] == PartContributions(codec, items[..i])[j]
    {
      SameInBoth(codec, items, i, j);
    }
  }

  lemma SameInBoth(codec: Codec<string>, items: seq<Json>, i: nat, j: nat)
    requires j < i < |items|
    ensures PartContributions(codec, items[..i + 1])[j] == PartContributions(codec, items[..i])[j]
  {
    FrontOfFront(items, i, j);
    FrontOfFront(items, i + 1, j);
  }

  /** What an item contributes depends only on what is in front of it. */
  lemma SameContribution(codec: Codec<string>, items: seq<Json>, n: nat, j: nat)
    requires j < n <= |items|
    ensures PartContributions(codec, items[..n])[j] == ItemParts(codec, NamesAfter(items[..j]), items[j])
  {
    FrontOfFront(items, n, j);
  }

  lemma FrontOfFront<T>(s: seq<T>, i: nat, j: nat)
    requires j <= i <= |s|
    ensures s[..i][..j] == s[..j]
    ensures j < i ==> s[..i][j] == s[j]
  {
  }

  method OpenAIInputToGemini(codec: Codec<string>, payloadInput: Json) returns (r: Result<GeminiInput>)
    ensures r == ToGemini(codec, payloadInput)
  {
    var systemTexts: seq<string>, contents: seq<Message<Part>> := [], [];
    var callNameById: Names := map[];
    match payloadInput {
      case Str(text) =>
        if !Blank(text) {
          contents := [Message(User, [TextPart(text)])];
        }
      case Arr(items) =>
        for i := 0 to |items|
          invariant systemTexts == SystemTexts(items[..i])
          invariant callNameById == NamesAfter(items[..i])
          invariant contents == Grouped(AllParts(codec, items[..i]))
        {
          assert items[..i + 1][..i] == items[..i];
          OneMoreGeminiItem(codec, items, i);
          systemTexts, callNameById, contents :=
            AddGeminiItem(codec, items[i], systemTexts, callNameById, contents);
        }
        assert items[..|items|] == items;
      case _ =>
        return Err(BAD_INPUT);
    }
    if contents == [] {
      return Err(NO_MESSAGES);
    }
    var systemInstruction := None;
    if |systemTexts| > 0 {
      systemInstruction := Some(Join(systemTexts, "\n\n"));
    }
    r := Ok(GeminiInput(systemInstruction, contents));
  }

  /** A named function call with this id. */
  predicate Calls(json: Json, id: string) {
    && json.Obj? && KindOf(json.fields).Call? && AsText(Get(json.fields, "name")) != ""
    && id != "" && AsText(Get(json.fields, "call_id")) == id
  }

  /** The position of the last named call with an id, or -1. */
  function LatestCall(items: seq<Json>, id: string): (i: int)
    ensures -1 <= i < |items|
    ensures i >= 0 ==> Calls(items[i], id)
    ensures forall j :: i < j < |items| ==> !Calls(items[j], id)
  {
    LastWhere(items, (json: Json) => Calls(json, id))
  }

  function LastWhere<T>(s: seq<T>, test: T -> bool): (i: int)
    ensures -1 <= i < |s|
    ensures i >= 0 ==> test(s[i])
    ensures forall j :: i < j < |s| ==> !test(s[j])
  {
    if s == [] then -1
    else if test(s[|s| - 1]) then |s| - 1
    else LastWhere(s[..|s| - 1], test)
  }

  /** The name remembered for an id is that of the latest call with the id. */
  lemma {:induction false} NameOfLatestCall(items: seq<Json>, id: string)
    ensures
      var names, i := NamesAfter(items), LatestCall(items, id);
      if i < 0 then id !in names else id in names && names[id] == AsText(Get(items[i].fields, "name"))
  {
    if items != [] {
      NameOfLatestCall(items[..|items| - 1], id);
    }
  }

  // ----- what both translations promise -----

  lemma GroupedKeepsAll<P>(all: seq<(Role, P)>, messages: seq<Message<P>>)
    requires messages == Grouped(all)
    ensures if messages == [] then all == [] else Alternating(messages) && Flatten(messages) == all
  {
    GroupedKeeps(all);
  }

  /** Either the input has no usable part, or all its parts arrive once, in order, well grouped. */
  lemma AnthropicKeepsParts(codec: Codec<string>, items: seq<Json>)
    ensures
      var all := AllBlocks(codec, items);
      match ToAnthropic(codec, Arr(items))
      case Err(_) => all == []
      case Ok(r) => r.messages != [] && Alternating(r.messages) && Flatten(r.messages) == all
  {
    var all := AllBlocks(codec, items);
    var messages, r := Grouped(all), ToAnthropic(codec, Arr(items));
    GroupedKeepsAll(all, messages);
    assert r == if messages == [] then Err(NO_MESSAGES) else Ok(AnthropicInput(SystemTexts(items), messages));
  }

  lemma GeminiKeepsParts(codec: Codec<string>, items: seq<Json>)
    ensures
      var all := AllParts(codec, items);
      match ToGemini(codec, Arr(items))
      case Err(_) => all == []
      case Ok(r) => r.contents != [] && Alternating(r.contents) && Flatten(r.contents) == all
  {
    var all := AllParts(codec, items);
    var contents, r := Grouped(all), ToGemini(codec, Arr(items));
    GroupedKeepsAll(all, contents);
    assert if contents == [] then r == Err(NO_MESSAGES) else r.Ok? && r.value.contents == contents;
  }

  /** The roles of messages with their numbers of parts. */
  function Skeleton<P>(messages: seq<Message<P>>): (shape: seq<(Role, nat)>)
    ensures |shape| == |messages|
  {
    seq(|messages|, i requires 0 <= i < |messages| => (messages[i].role, |messages[i].parts|))
  }

  function Roles<P>(tagged: seq<(Role, P)>): (roles: seq<Role>)
    ensures |roles| == |tagged|
  {
    seq(|tagged|, i requires 0 <= i < |tagged| => tagged[i].0)
  }

  /** The skeleton depends on the roles of the parts only. */
  lemma {:induction false} SkeletonOfRoles<P, Q>(a: seq<(Role, P)>, b: seq<(Role, Q)>)
    requires Roles(a) == Roles(b)
    ensures Skeleton(Grouped(a)) == Skeleton(Grouped(b))
    decreases |a|
  {
    assert |a| == |b|;
    if a != [] {
      var n := |a| - 1;
      assert Roles(a)[..n] == Roles(a[..n]) && Roles(b)[..n] == Roles(b[..n]);
      SkeletonOfRoles(a[..n], b[..n]);
      assert Roles(a)[n] == Roles(b)[n];
      SkeletonOfAppend(Grouped(a[..n]), Grouped(b[..n]), a[n].0, a[n].1, b[n].1);
    }
  }

  lemma SkeletonOfAppend<P, Q>(a: seq<Message<P>>, b: seq<Message<Q>>, role: Role, p: P, q: Q)
    requires Skeleton(a) == Skeleton(b)
    ensures Skeleton(Append(a, role, [p])) == Skeleton(Append(b, role, [q]))
  {
    assert |a| == |b|;
    if a != [] {
      assert Skeleton(a)[|a| - 1] == Skeleton(b)[|a| - 1];
    }
    var a', b' := Append(a, role, [p]), Append(b, role, [q]);
    forall i | 0 <= i < |a'| && i < |a| - 1 ensures Skeleton(a')[i] == Skeleton(b')[i] {
      assert Skeleton(a)[i] == Skeleton(b)[i];
    }
  }

  function Total(shape: seq<(Role, nat)>): nat {
    if shape == [] then 0 else Total(shape[..|shape| - 1]) + shape[|shape| - 1].1
  }

  lemma {:induction false} TotalIsCount<P>(messages: seq<Message<P>>)
    ensures Total(Skeleton(messages)) == |Flatten(messages)|
  {
    if messages != [] {
      var n := |messages| - 1;
      TotalIsCount(messages[..n]);
      assert Skeleton(messages)[..n] == Skeleton(messages[..n]);
    }
  }

  /** Gemini takes a named call without call id and an output without call id; Anthropic drops both. */
  predicate LacksCallId(json: Json) {
    json.Obj? && AsText(Get(json.fields, "call_id")) == ""
    && (KindOf(json.fields).Output? || (KindOf(json.fields).Call? && AsText(Get(json.fields, "name")) != ""))
  }

  predicate Identified(items: seq<Json>) {
    forall i :: 0 <= i < |items| ==> !LacksCallId(items[i])
  }

  lemma ItemRolesAgree(codec: Codec<string>, names: Names, json: Json)
    ensures
      var (ra, a) := ItemBlocks(codec, json);
      var (rg, g) := ItemParts(codec, names, json);
      if LacksCallId(json) then |a| == 0 && |g| == 1 else |a| == |g| && (a != [] ==> ra == rg)
  {
  }

  lemma RolesAgree(codec: Codec<string>, items: seq<Json>)
    ensures
      var a, g := AllBlocks(codec, items), AllParts(codec, items);
      |a| <= |g| && if Identified(items) then Roles(a) == Roles(g) else |a| < |g|
  {
    var a, g := Contributions(codec, items), PartContributions(codec, items);
    forall i | 0 <= i < |items|
      ensures |a[i].1| <= |g[i].1|
      ensures Matching(a[i], g[i]) <==> !LacksCallId(items[i])
      ensures |a[i].1| == |g[i].1| <==> !LacksCallId(items[i])
    {
      ItemRolesAgree(codec, NamesAfter(items[..i]), items[i]);
    }
    CollectedFewer(a, g);
    if Identified(items) {
      CollectedMatch(a, g);
    }
  }

  predicate Matching<P, Q>(a: (Role, seq<P>), g: (Role, seq<Q>)) {
    |a.1| == |g.1| && (|a.1| > 0 ==> a.0 == g.0)
  }

  lemma {:induction false} CollectedFewer<P, Q>(a: seq<(Role, seq<P>)>, g: seq<(Role, seq<Q>)>)
    requires |a| == |g| && forall i :: 0 <= i < |a| ==> |a[i].1| <= |g[i].1|
    ensures |Collected(a)| <= |Collected(g)|
    ensures |Collected(a)| == |Collected(g)| ==> forall i :: 0 <= i < |a| ==> |a[i].1| == |g[i].1|
  {
    if a != [] {
      CollectedFewer(a[..|a| - 1], g[..|g| - 1]);
    }
  }

  lemma {:induction false} CollectedMatch<P, Q>(a: seq<(Role, seq<P>)>, g: seq<(Role, seq<Q>)>)
    requires |a| == |g| && forall i :: 0 <= i < |a| ==> Matching(a[i], g[i])
    ensures Roles(Collected(a)) == Roles(Collected(g))
  {
    if a != [] {
      var n := |a| - 1;
      CollectedMatch(a[..n], g[..n]);
      RolesStep(Collected(a[..n]), Collected(g[..n]), a[n].0, a[n].1, g[n].0, g[n].1);
    }
  }

  lemma RolesStep<P, Q>(x: seq<(Role, P)>, y: seq<(Role, Q)>, rx: Role, p: seq<P>, ry: Role, q: seq<Q>)
    requires Roles(x) == Roles(y) && |p| == |q| && (p != [] ==> rx == ry)
    ensures Roles(x + Tagged(rx, p)) == Roles(y + Tagged(ry, q))
  {
    RolesAppend(x, Tagged(rx, p));
    RolesAppend(y, Tagged(ry, q));
    assert Roles(Tagged(rx, p)) == Roles(Tagged(ry, q));
  }

  lemma RolesAppend<P>(a: seq<(Role, P)>, b: seq<(Role, P)>)
    ensures Roles(a + b) == Roles(a) + Roles(b)
  {
  }

  function AnthropicSkeleton(codec: Codec<string>, items: seq<Json>): seq<(Role, nat)> {
    match ToAnthropic(codec, Arr(items))
    case Ok(r) => Skeleton(r.messages)
    case Err(_) => []
  }

  function GeminiSkeleton(codec: Codec<string>, items: seq<Json>): seq<(Role, nat)> {
    match ToGemini(codec, Arr(items))
    case Ok(r) => Skeleton(r.contents)
    case Err(_) => []
  }

  lemma SkeletonCounts(codec: Codec<string>, items: seq<Json>)
    ensures AnthropicSkeleton(codec, items) == Skeleton(Grouped(AllBlocks(codec, items)))
    ensures GeminiSkeleton(codec, items) == Skeleton(Grouped(AllParts(codec, items)))
    ensures Total(AnthropicSkeleton(codec, items)) == |AllBlocks(codec, items)|
    ensures Total(GeminiSkeleton(codec, items)) == |AllParts(codec, items)|
  {
    AnthropicSkeletonIs(codec, items, Grouped(AllBlocks(codec, items)));
    GeminiSkeletonIs(codec, items, Grouped(AllParts(codec, items)));
    GroupedCount(AllBlocks(codec, items));
    GroupedCount(AllParts(codec, items));
  }

  lemma GroupedCount<P>(all: seq<(Role, P)>)
    ensures Total(Skeleton(Grouped(all))) == |all|
  {
    GroupedKeeps(all);
    TotalIsCount(Grouped(all));
  }

  lemma AnthropicSkeletonIs(codec: Codec<string>, items: seq<Json>, messages: seq<Message<Block>>)
    requires messages == Grouped(AllBlocks(codec, items))
    ensures AnthropicSkeleton(codec, items) == Skeleton(messages)
  {
    var r := ToAnthropic(codec, Arr(items));
    assert r == if messages == [] then Err(NO_MESSAGES) else Ok(AnthropicInput(SystemTexts(items), messages));
  }

  lemma GeminiSkeletonIs(codec: Codec<string>, items: seq<Json>, contents: seq<Message<Part>>)
    requires contents == Grouped(AllParts(codec, items))
    ensures GeminiSkeleton(codec, items) == Skeleton(contents)
  {
    var r := ToGemini(codec, Arr(items));
    assert if contents == [] then r == Err(NO_MESSAGES) else r.Ok? && r.value.contents == contents;
  }

  /**
   * The two translations of an input have the same roles and the same numbers of parts, message by
   * message, exactly when no named call and no output in it lacks its call id.
   */
  lemma TranslationsAgree(codec: Codec<string>, items: seq<Json>)
    ensures AnthropicSkeleton(codec, items) == GeminiSkeleton(codec, items) <==> Identified(items)
  {
    SkeletonCounts(codec, items);
    RolesAgree(codec, items);
    if Identified(items) {
      SkeletonOfRoles(AllBlocks(codec, items), AllParts(codec, items));
    }
  }
}
