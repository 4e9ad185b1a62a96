# Verified models of the adjudication tools

This project models the algorithmic parts of the Go code around the adjudication engines and proves what
they promise. `dafny verify dfyconfig.toml` checks all of it. Each module follows one source file, or one
half of it; methods with loops and classes stand where the source works step by step, and each is tied to a
function about which the theorems are then proved.

**Protocol translation** (`Translate`, `TranslateWire`, `Reply`, `ReplyWire`, `RoundTrip`, `Stream`,
`StreamRoundTrip`). An OpenAI Responses input becomes Anthropic messages or Gemini contents; a reply becomes
Responses items; the items are played back as an event stream. Proved: both translations keep every part
once and in order, in the one possible grouping without empty messages and without equal neighbours; what
one more item of any kind adds to what is sent, said with the raw fields of the item and the translators'
results alone, so that a function response is named after the latest call with its id; they have the same
skeleton if and only if no named call and no output lacks its call id; a reply that is sent back as input
becomes the same blocks again if and only if it has a block and every block is non-blank text or a complete
tool call; a client that folds the events alone rebuilds exactly the items, at the right indexes, which is
the response's own output if and only if no item is a call; when it sends that list back, the reasoning item
included, the reply comes back under the same condition; a connection that breaks leaves exactly what was
written in front of the write that failed, and the client can tell. The client that folds the stream is
strict: it takes no event out of turn and none may be missing.

**Delta-encoded log** (`LineFeed`, `PiTailLog`, `PiTailLogSpec`, `PiTailLogRebuild`, `PiTailLogWriter`).
Bytes arrive in chunks, lines are rebuilt, and accumulated texts are replaced by their tails. Proved:
chunking does not matter, and a destination that fails holds a prefix of the log; over the bytes of the log
and with nothing but paths into JSON, each line that repeats the latest text of its slot reports just the
rest of it, carries the marker, and differs in nothing else, and all other lines are the input's; a reader
with its own memory recovers the full text of every event if and only if no line misleads it by an
`adc_log_filter` key of its own. What the log forgets about whole events is exact as well. Another event
with the same text is shortened to the same if and only if, of the two messages besides the partial one, one
holds the text and the other already held the tail. A reader sees that in the log; in every other case the
count in the marker is enough to rebuild the whole event. So an input without such keys of its own is
determined by its log, as JSON, if and only if no line is shortened although it is ambiguous.

**JSON-RPC client** (`AcpClient`, `AcpHistory`, `AcpOutcome`; JSON-RPC 2.0, sections 4 and 5). Requests, the
reader and Close are interleaved steps over one table of pending requests. Proved over every run: ids are
unique, no channel is sent to twice (so no send blocks, also not the one under the mutex), a success carries
the request's own id and a line the peer really sent, read after the request had registered and answering no
other request, nobody is forgotten by the sweep, which does what the object's failPending does, and after
the reader has ended every request can return within four steps of its own. Every outcome in every run has
its reason in what happened before: an error was sent by the peer under the request's id, or the input ended
with it while the request was in the table. And what a caller is promised can be had: a new request on an
open client comes to wait, and from every state in which one waits the peer can answer it, with a result or
with an error, which then is what it returns. A request that leaves through the closed transport keeps its
table entry; the invariant says so.

**Event tail** (`EventTail`, `EventTailSpec`; RFC 9110, sections 14.1.2 and 14.4). The rows of a log are
exactly its lines that hold an event, each at the position in the bytes where the line starts. A window at
the end of a log gives exactly the newest rows of the whole log whose lines start behind the cut, with the
same offsets and the same cap, end to end through the `Content-Range` header.

**Markdown** (`InlineRules`, `InlineOrder`, `InlineRestore`, `InlineMisled`, `Inline`, `InlineSpec`,
`InlineShown`, `InlineTags`, `Markdown`, `MarkdownSpec`, `MarkdownPage`, `PageTags`). Code spans leave
numbered placeholders, the link and emphasis rules run over the rest, and the spans are put back by search.
The reference has no placeholders: a code span is one symbol. Proved: the rules do to the text with
placeholders what they do to symbols; no span is lost or doubled; their order changes if and only if a
rewritten link has spans both in its text and in its target; and the page equals the reference if and only
if no rewritten link has some span i in its text and, in its target, just the number i between two other
spans. So the comment that NUL bytes are kept out of the page is wrong for links such as `` [`a`](`b`0`c`) ``: the spans are
misplaced and NULs remain. What the rules match and write is stated apart: as patterns over strings, and as
families of texts from source to page. Escaped text is harmless and reads back as itself, and every `<` of a
page starts a tag of the renderer. On the block level: which lines start what, how far a block reaches, and
what it is printed as; every helper takes at least the line that selected it, tags nest and stand where they
may, and lists lose no text.

**Search and sampling** (`Scan`, `Pool`, `PoolSampling`). The directory walk reports exactly the topmost
marked directories within the depth limit and off skipped paths, each once. Collapsing the persona rows is
exact if and only if no two names share a joined key. With the random numbers and the fate of each printed
line given in advance, sampling is determined: which gene, cluster and record each number picks, which lines
are printed, and when it fails. It narrows at least once, goes on up to the limit drawn or until every gene
left was chosen, shrinks the set of unused genes, never runs out of records, and returns a record that holds
every pair chosen on the way.

**Packets, scores, amounts** (`CasePacket`, `Publish`, `Rule11`, `Rule11Spec`, `Rule11Summary`, `CaseGen`).
The packet's entries do not depend on the order of the links; under every pattern of failing file steps the
manifest changes only together with the packet, and only temporary files whose removal failed remain. A
response to a Rule 11 motion is scored as its fields say: the first failing check of a list is its problem,
and otherwise the outcome is correct exactly when the fields rule as expected. Every valid Rule 11 fixture
has a dry run that scores as correct; the counters balance if and only if no result errs without a wrong
ruling. Out of any text without a digit in front of it, a printed dollar amount is read back if and only if
the text behind it does not go on with a digit, be it behind commas; zeros behind `$0` and digits behind an
amount beyond 64 bits do no harm.

## Model

| member | source | states |
|---|---|---|
| Translate.TextBlocksFromOpenAIContent | common/xproxy/xproxy_translate.go:31-59 | the loop over content parts collects exactly the non-blank texts of the text and refusal parts, in order |
| Translate.GroupedKeeps | common/xproxy/xproxy_translate.go:64-74 | joining parts of one role loses nothing, keeps the order, and leaves no empty message and no two neighbours of one role |
| Translate.AppendGrouped | common/xproxy/xproxy_translate.go:64-74 | appending several parts at once is the same as appending them one by one |
| Translate.GroupingUnique | common/xproxy/xproxy_translate.go:64-74 | non-empty alternating messages are determined by their parts alone |
| Translate.OpenAIInputToAnthropic | common/xproxy/xproxy_translate.go:61-139 | the loop over input items returns the grouped blocks and the system texts, or the two errors |
| Translate.AnthropicKeepsParts | common/xproxy/xproxy_translate.go:61-139 | the messages hold all usable blocks once and in order, alternating; the error means that there is none |
| Translate.OpenAIInputToGemini | common/xproxy/xproxy_translate.go:253-335 | the loop with the map of call names returns the grouped parts and the joined system text, or the two errors; TranslateWire says what each item adds to the parts |
| Translate.GeminiKeepsParts | common/xproxy/xproxy_translate.go:253-335 | the contents hold all usable parts once and in order, alternating; the error means that there is none |
| Translate.NameOfLatestCall | common/xproxy/xproxy_translate.go:253-335 | the map of call names holds for each id the name of the latest named call with it, and nothing if and only if there is no such call; TranslateWire.ResponseAdds says that this name is sent |
| Translate.RolesAgree | common/xproxy/xproxy_translate.go:61-335 | equal roles when no named call and no output lacks its call id; otherwise Gemini has strictly more parts |
| Translate.TranslationsAgree | common/xproxy/xproxy_translate.go:61-335 | same roles and same part counts message by message if and only if no named call and no output lacks its call id |
| TranslateWire.OnePartMore | common/xproxy/xproxy_translate.go:31-59 | one more content part adds the text it carries, by its kind, if that is not blank, and otherwise nothing |
| TranslateWire.MessageSent | common/xproxy/xproxy_translate.go:95-96 | a message of the user or the assistant adds each of its texts as a part of that role, in order, to both translations |
| TranslateWire.OthersAdd | common/xproxy/xproxy_translate.go:85-131 | system messages and all other items add no part |
| TranslateWire.CallAdds | common/xproxy/xproxy_translate.go:117-129 | a named call adds one part of the assistant with its name and decoded arguments; for Anthropic it needs an id, which is kept |
| TranslateWire.ResponseAdds | common/xproxy/xproxy_translate.go:312-320 | an output adds one function response of the user with its decoded output, named after the latest earlier call with its call id |
| TranslateWire.ResultAdds | common/xproxy/xproxy_translate.go:97-116 | an output with a call id adds one tool result of the user with that id and its text, and one without adds nothing |
| TranslateWire.ResponseSent | common/xproxy/xproxy_translate.go:253-335 | in what is sent to Gemini, each output of any input stands behind the parts of the items before it, as the response of the latest call in front of it with its id |
| TranslateWire.ResultSent | common/xproxy/xproxy_translate.go:61-139 | in what is sent to Anthropic, each output with a call id stands likewise, with that id and its text |
| TranslateWire.AnswersItsCall | common/xproxy/xproxy_translate.go:309-319 | an output behind a named call with its id, and no later one, answers under the name of that call |
| TranslateWire.NoCallNoName | common/xproxy/xproxy_translate.go:315-318 | without such a call the response is named "tool" |
| TranslateWire.ResultsAre | common/xproxy/xproxy_translate.go:132-138 | what both translators return beside the parts: the system texts, joined by empty lines for Gemini, or which error, and when |
| Reply.StripOutputIndexes | common/xproxy/xproxy_translate.go:460-473 | the items without their stream positions, in order |
| Reply.CollectItems | common/xproxy/xproxy_translate.go:190-229 | the loop numbers the items of the pieces consecutively and joins the message texts |
| Reply.AnthropicToResponsesResponse | common/xproxy/xproxy_translate.go:185-251 | output, numbered stream items, output text and status of a reply |
| Reply.GeminiToResponsesResponse | common/xproxy/xproxy_translate.go:379-458 | the same for the first candidate of a Gemini reply |
| ReplyWire.BlockAdds | common/xproxy/xproxy_translate.go:190-229 | a text block adds a message, a tool use adds a call with made-up id and name where it has none, any other block nothing |
| ReplyWire.PartAdds | common/xproxy/xproxy_translate.go:390-431 | a part with a text adds a message, one with a function call adds a call, any other part nothing |
| ReplyWire.AnthropicStatusIs | common/xproxy/xproxy_translate.go:174-183 | incomplete at the token limit, failed on refusal, completed for every other stop reason or none |
| ReplyWire.GeminiStatusIs | common/xproxy/xproxy_translate.go:368-388 | the same for the first candidate, if there is one and it is an object |
| RoundTrip.AnthropicRoundTrip | common/xproxy/xproxy_translate.go:61-251 | a reply sent back as input is one assistant message with exactly its blocks if and only if it is not empty and all its blocks are non-blank text or complete tool calls |
| RoundTrip.AnthropicNextTurn | common/xproxy/xproxy_translate.go:61-251 | behind any history, a good reply extends the messages by exactly its blocks |
| RoundTrip.GeminiRoundTrip | common/xproxy/xproxy_translate.go:253-458 | the same for Gemini parts |
| Stream.Connection.SendEach | common/xproxy/xproxy.go:456-475 | fails exactly when one of its writes fails; then just the events in front of that write were sent, and nothing is written behind it |
| Stream.SendItem | common/xproxy/xproxy.go:535-678 | one item's events, with early return at each write, and the delta only for a non-empty text |
| Stream.WriteSyntheticResponsesStream | common/xproxy/xproxy.go:450-700 | the whole event sequence was sent without a failing write, or a write failed and exactly the events in front of it were sent |
| Stream.FoldItems | common/xproxy/xproxy.go:535-678 | folding the events of numbered items from any point on appends exactly those items |
| Stream.StreamRebuildsResponse | common/xproxy/xproxy.go:450-700 | a strict client, which wants every stage of every item in its turn and the response completed as announced, rebuilds exactly the translated items; item k is at k, or at k + 1 behind a reasoning item if and only if some item is a call; items never overlap |
| Stream.StreamMatchesOutput | common/xproxy/xproxy.go:450-700 | for the response and items of a reply translator, the folded list is the response's output if and only if no item is a call, and otherwise has just the reasoning item in front |
| Stream.CutStreamIsKnown | common/xproxy/xproxy.go:450-700 | every proper prefix folds without a gap, and the client sees that it did not end |
| StreamRoundTrip.ClientSendsItems | common/xproxy/xproxy.go:504-678 | what a client sends back after folding the stream are the items as the translator made them, behind the reasoning item if and only if some item is a call |
| StreamRoundTrip.AnthropicTurn | common/xproxy/xproxy_translate.go:61-251 | translated, played back, folded and sent back, a reply is one assistant message with exactly its blocks if and only if it is not empty and all its blocks are good |
| StreamRoundTrip.GeminiTurn | common/xproxy/xproxy_translate.go:253-458 | the same for Gemini parts |
| LineFeed.SplitAppend | adc/runtime/localrun/pi_tail_log.go:29-44 | splitting two texts in a row glues the last line of one to the first of the other |
| LineFeed.FeedAppend | adc/runtime/localrun/pi_tail_log.go:25-45 | feeding two chunks is feeding their concatenation, in state and output |
| LineFeed.FeedIsLineByLine | adc/runtime/localrun/pi_tail_log.go:25-68 | feeding and a flush write the filter applied to the lines of the whole input |
| LineFeed.ChunksAreLineByLine | adc/runtime/localrun/pi_tail_log.go:25-68 | the same for every way of chunking |
| PiTailLog.AlwaysReplaces | adc/runtime/localrun/pi_tail_log.go:104-108 | the branch that replaces nothing is never taken: the partial message always holds the text |
| PiTailLog.ContentOfReplaced | adc/runtime/localrun/pi_tail_log.go:164-213 | after the replacement the event reports the same place with the tail as its text |
| PiTailLog.KeyInjective | adc/runtime/localrun/pi_tail_log.go:125-127 | the colon-joined key determines response id, index and field, also when response ids contain colons |
| PiTailLog.AgreeUpdate | adc/runtime/localrun/pi_tail_log.go:97-99 | writer's and reader's memories stay equal when both remember one more text |
| PiTailLog.LineRecovered | adc/runtime/localrun/pi_tail_log.go:81-123 | a line is recovered in full if and only if it has no native marker on an unrepeated text with a remembered prefix; the memories then still agree |
| PiTailLogSpec.ContentIff | adc/runtime/localrun/pi_tail_log.go:129-162 | the filter finds exactly the text that an event reports, said by paths into its JSON |
| PiTailLogSpec.AllCut | adc/runtime/localrun/pi_tail_log.go:164-206 | the replacement puts the tail at exactly the paths where a message repeats the text under no other response id, and counts them |
| PiTailLogSpec.ShortenedIsCut | adc/runtime/localrun/pi_tail_log.go:103-118 | a shortened event is the event with these texts cut and with the seven fields of the marker; nothing else differs |
| PiTailLogSpec.MemoryIsLatest | adc/runtime/localrun/pi_tail_log.go:97-99 | after any lines the memory holds a text for a slot if and only if the latest line that reports the slot reports this text |
| PiTailLogSpec.LogShortens | adc/runtime/localrun/pi_tail_log.go:25-123 | for all chunks, each line of the log is the input line byte for byte, but for a line whose text extends the latest text of its slot, which is not empty: it decodes to the cut and marked event, which reports just the rest |
| PiTailLogRebuild.ReplacedInTurn | adc/runtime/localrun/pi_tail_log.go:164-183 | the replacement and its count are those of three independent replacements, one after another |
| PiTailLogRebuild.RestoredUnlessAmbiguous | adc/runtime/localrun/pi_tail_log.go:104-213 | a reader that knows the full text rebuilds the whole event with the help of replaced_fields, unless it is ambiguous which texts were cut |
| PiTailLogRebuild.AmbiguityShows | adc/runtime/localrun/pi_tail_log.go:104-213 | an event was ambiguous if and only if its shortened form has two cuts and the tail in all three messages |
| PiTailLogRebuild.ShorteningForgetsIff | adc/runtime/localrun/pi_tail_log.go:104-213 | another event without marker and with the same content is shortened to the same if and only if, of assistantMessageEvent.message and message, one holds the text and the other already the tail |
| PiTailLogRebuild.ShorteningForgets | adc/runtime/localrun/pi_tail_log.go:164-213 | two concrete different events have one shortened form |
| PiTailLogRebuild.LineDetermined | adc/runtime/localrun/pi_tail_log.go:81-123 | from one memory on, two lines without marker for which the same is written are the same JSON unless one is ambiguous |
| PiTailLogWriter.ChunkingIndependent | adc/runtime/localrun/pi_tail_log.go:25-68 | the log is the filter applied line by line to the whole input, newlines kept |
| PiTailLogWriter.LogIsLossless | adc/runtime/localrun/pi_tail_log.go:25-127 | from the bytes of the log a reader without knowledge recovers the full text of every event, in order and however the input was chunked, if and only if no line misleads it |
| PiTailLogWriter.MarkerFreeIsLossless | adc/runtime/localrun/pi_tail_log.go:25-127 | always when no input line has an adc_log_filter key of its own |
| PiTailLogWriter.NativeMarkerMisleads | adc/runtime/localrun/pi_tail_log.go:81-123 | every pair of events of one slot, the second with such a key and a text that does not extend the first, is recovered wrongly |
| PiTailLogWriter.NativeMarkerLoses | adc/runtime/localrun/pi_tail_log.go:81-123 | whatever the codec, there is an input of which a text is recovered wrongly |
| PiTailLogWriter.LogForgetsIff | adc/runtime/localrun/pi_tail_log.go:25-127 | for input without such keys, another input of that kind has the same log but different JSON lines if and only if some line is shortened although it is ambiguous |
| PiTailLogWriter.LogOutput | adc/runtime/localrun/localrun.go:1409-1422 | a process's chunks written through the object and then flushed leave exactly the log in the destination, or a prefix of it when a write failed |
| PiTailLogWriter.Sink.Write | adc/runtime/localrun/pi_tail_log.go:60-66 | the destination takes all bytes, or fails after some of them |
| PiTailLogWriter.Writer.Write | adc/runtime/localrun/pi_tail_log.go:25-45 | success reports the full length and writes the completed lines; a failure reports up to the newline of the line that failed and leaves an empty buffer |
| PiTailLogWriter.Writer.Flush | adc/runtime/localrun/pi_tail_log.go:47-55 | writes the filtered unfinished line, if there is one |
| PiTailLogWriter.Writer.WriteBufferedLine | adc/runtime/localrun/pi_tail_log.go:57-68 | filters and empties the buffer; the destination gets the line, or a prefix on failure |
| PiTailLogWriter.Writer.FilterLine | adc/runtime/localrun/pi_tail_log.go:81-123 | the step-by-step filter computes the specified memory and line, of which PiTailLogSpec.LogShortens says when it is cut and how |
| AcpClient.StepKeeps | common/acp/client.go:290-469 | every step of a request, of the reader and of Close keeps the whole invariant |
| AcpClient.RunIsSafe | common/acp/client.go:290-469 | in every run ids are unique, no channel is sent to twice, a success carries the request's own id and a line the peer sent, and the reader's sends never block; AcpOutcome says what each request returns and that it can |
| AcpHistory.AnsweredLater | common/acp/client.go:290-332 | in every run a success returns a line that was read after every moment at which the request was not registered yet |
| AcpHistory.AnswersDiffer | common/acp/client.go:401-409 | in every run no line answers two requests |
| AcpOutcome.OutcomeExplained | common/acp/client.go:290-326 | every outcome in every run has its reason: a success its line, an error a line with the request's id and this error or an end of input with this message while the request was in the table, and so on for closing, writing, cancelling and the closed transport |
| AcpOutcome.StepsDecide | common/acp/client.go:290-326 | the steps a request has taken decide its outcome: each kind of outcome if and only if its step was taken |
| AcpOutcome.FlagsHold | common/acp/client.go:186-196 | the client is closed if and only if Close ran, done if and only if the reader ended, and the lines are those read, in order |
| AcpOutcome.WaitingCanBeAnswered | common/acp/client.go:314-410 | from every reachable state in which a request waits in the table and the reader reads, a line with its id is read, delivered and received, and is what the request returns: a success with this response, or its error |
| AcpOutcome.CallWaits | common/acp/client.go:290-325 | a new request on an open client gets the next id, enters the table and waits |
| AcpOutcome.CloseRefuses | common/acp/client.go:293-297 | after Close a new request is refused and the table stays |
| AcpOutcome.GivesUp | common/acp/client.go:310-332 | a failed write and a cancelled context return as such and take exactly this request out of the table |
| AcpOutcome.StrayLine | common/acp/client.go:401-410 | a line whose id nobody waits for changes nothing |
| AcpOutcome.SweepArrives | common/acp/client.go:318-469 | a waiting request that the sweep finds returns the sweep's message |
| AcpClient.SweepServesAll | common/acp/client.go:458-469 | when failPending is done, every request in the table or waiting has a value in its channel |
| AcpClient.SweepFails | common/acp/client.go:458-469 | the steps of the sweep, in any order of the entries, empty the table, send the failure to exactly the channels in it and change nothing else, which is what the object's failPending promises |
| AcpClient.SweepMayStart | common/acp/client.go:458-469 | the invariant gives what the object's failPending requires |
| AcpClient.StepsApproach | common/acp/client.go:290-326 | a request's own steps bring it closer to its return, and nobody else's move it |
| AcpClient.ReaderApproaches | common/acp/client.go:458-469 | every reader step of the sweep brings it closer to closing done, whatever interleaves |
| AcpClient.ReaderHasStep | common/acp/client.go:344-360 | the reader can always go on until done is closed |
| AcpClient.NoRequestStuck | common/acp/client.go:293-360 | in every run that has closed done, each request can return within four steps of its own |
| AcpClient.Client.NewRequest | common/acp/client.go:291-292 | a new id and a new empty channel |
| AcpClient.Client.Register | common/acp/client.go:293-299 | enters the table unless the client is closed |
| AcpClient.Client.RemovePending | common/acp/client.go:328-332 | removes exactly this id |
| AcpClient.Client.TakePending | common/acp/client.go:401-406 | takes the channel of an id out of the table; an unknown id changes nothing |
| AcpClient.Client.Receive | common/acp/client.go:318-322 | takes the value out of the channel |
| AcpClient.Client.FailPending | common/acp/client.go:458-469 | empties the table and sends the failure to exactly the channels that were in it |
| AcpClient.Client.Close | common/acp/client.go:186-196 | only the first call goes on; the client is closed afterwards |
| EventTail.ReverseInPlace | web/console/server.go:835-837 | the swapping loop reverses the rows in place |
| EventTail.ScanLines | web/console/server.go:813-831 | the scanning loop finds the row of every line that decodes, with its absolute offset |
| EventTailSpec.LogRows | web/console/server.go:813-831 | the rows of a log are, in order, exactly the lines in its bytes of which something is left that decodes into an object or null, each at the position where it starts |
| EventTailSpec.NewestAre | web/console/server.go:832-837 | the cap keeps the last rows, newest first |
| EventTail.EventRowsFromNDJSON | web/console/server.go:804-839 | drop of the first fragment, scan, cap and reversal together |
| EventTail.WindowIsCut | web/console/server.go:804-831 | the window's rows are the end of the log's rows, cut exactly at the rows whose lines start behind the cut |
| EventTail.WindowAgreesWithLog | web/console/server.go:804-839 | with cap and newest-first order the window's rows are a prefix of the log's, exactly as far as the cut reaches |
| EventTail.LoadEventTailRows | web/console/server.go:492-517 | the guards for size, status and range, and the notices |
| EventTailSpec.StartIff | web/console/server.go:1466-1481 | a start is read out of a header if and only if the header says it: a number that is not negative between "bytes " and a dash |
| EventTailSpec.LoadedAre | web/console/server.go:503-516 | which notice is given when, and otherwise the newest rows of the body at the base that the header says |
| EventTail.SuffixRangeStart | web/console/server.go:1466-1481 | the start is read back out of the header a server answers a suffix range with |
| EventTail.TailAgreesWithLog | web/console/server.go:492-517 | against a server that honours the range, the table shows exactly the newest rows of the log behind the cut |
| InlineRules.DelimitedSpelled | web/report/markdown.go:220-225 | the delimiter patterns match on the text with placeholders exactly where they match on symbols |
| InlineRules.SafeSpelled | web/report/markdown.go:255-266 | a link target is safe with placeholders if and only if it is with symbols |
| InlineRules.StyledSpelled | web/report/markdown.go:240-248 | link, bold and emphasis rewriting commute with spelling code spans as placeholders |
| InlineSpec.EscapeShows | web/report/markdown.go:231 | escaped text holds no character of markup, each of its ampersands starts an entity, and a separate reader gets the text back |
| InlineSpec.CodeIff | web/report/markdown.go:221 | what a code span is |
| InlineSpec.BoldIff | web/report/markdown.go:223-245 | bold is exactly text without stars between two pairs of them, and is put into strong tags |
| InlineSpec.EmphasisIff | web/report/markdown.go:224-246 | emphasis is exactly text without stars between two of them with no white space at its ends, and is put into em tags |
| InlineSpec.LinkIff | web/report/markdown.go:222-244 | a link is exactly a caption in brackets and a target in parentheses; it becomes an anchor if the target is safe and stays otherwise |
| InlineSpec.SafeIff | web/report/markdown.go:255-265 | a target is safe if and only if it starts with one of three schemes in any case, or every colon in it stands behind a slash |
| InlineSpec.FirstHitReplaced | web/report/markdown.go:238-246 | text in front of the first hit stays, the hit is replaced, and the rule goes on behind it |
| InlineSpec.NothingMatches | web/report/markdown.go:230-251 | a text in which nothing matches is only escaped and shows no markup |
| InlineShown.BoldShown | web/report/markdown.go:230-251 | from source to page: any ordinary text with bold in it |
| InlineShown.EmphasisShown | web/report/markdown.go:230-251 | the same with emphasis |
| InlineShown.LinkShown | web/report/markdown.go:230-265 | the same with a link, safe or not |
| InlineShown.CodeShown | web/report/markdown.go:230-251 | the same with code, whatever marks stand in it |
| InlineTags.InlinedTagged | web/report/markdown.go:230-251 | for every text, each `<` of what it renders to starts a tag that the rules or code spans write |
| InlineOrder.ExtractedInOrder | web/report/markdown.go:233-239 | extraction numbers the spans consecutively |
| InlineOrder.StyledOrder | web/report/markdown.go:240-248 | the rules keep every span exactly once, and their order if and only if no rewritten link has spans both in its text and in its target |
| InlineRestore.StepRight | web/report/markdown.go:249-251 | where nothing misleads the search, one replacement brings its span back to its place |
| InlineRestore.StepWrong | web/report/markdown.go:249-251 | where the search is misled, the replacement cuts two other placeholders |
| InlineRestore.OrphanStays | web/report/markdown.go:249-251 | no later replacement mends a cut placeholder |
| Inline.ExtractCode | web/report/markdown.go:232-239 | the closure's loop yields the text with placeholders and the spans |
| Inline.RenderInline | web/report/markdown.go:230-253 | the whole pipeline as a loop over replacements, of which InlineShown and InlineTags say what it shows |
| InlineMisled.MisledIff | web/report/markdown.go:240-251 | the search is misled about span i if and only if, in the text before the rules, a rewritten link has span i in its text and just the number i between two other spans in its target |
| Inline.SpansReturnIff | web/report/markdown.go:230-253 | for every NUL-free text each span comes back in its own place if and only if there is no such link in it; otherwise a NUL remains |
| Inline.SpansReturn | web/report/markdown.go:230-253 | without a link that has spans on both sides all spans come back in order, whatever numbers stand between them |
| Inline.CodeLinkLost | web/report/markdown.go:230-253 | a family of links whose spans are misplaced and that leave NULs in the page |
| Markdown.RenderFence | web/report/markdown.go:107-125 | takes a whole fenced block and writes its body without blank end |
| Markdown.PeekListItem | web/report/markdown.go:175-184 | whether the first non-blank line from here on is an item of this kind of list |
| Markdown.RenderItems | web/report/markdown.go:138-173 | the list loop takes exactly the lines of the list and writes its items |
| Markdown.RenderList | web/report/markdown.go:127-173 | takes a whole list block, at least its first line, and writes the list |
| Markdown.RenderQuote | web/report/markdown.go:186-200 | takes a whole quote block and writes it |
| Markdown.RenderParagraph | web/report/markdown.go:202-218 | takes a whole paragraph, at least the line that selected it, and writes it |
| Markdown.RenderMarkdown | web/report/markdown.go:24-50 | the loop ends and writes the blocks of the document, which partition its lines |
| MarkdownSpec.HeadingIff | web/report/markdown.go:53-62 | a heading is exactly one to six hashes and a space |
| MarkdownSpec.RuleIff | web/report/markdown.go:64-78 | a rule is exactly three or more of one of three characters |
| MarkdownSpec.BulletIff | web/report/markdown.go:81-86 | a bullet is exactly one of three characters, a space and text |
| MarkdownSpec.NumberedIff | web/report/markdown.go:88-105 | a numbered item is exactly one to nine digits, a period or parenthesis, a space and text; its number is these digits |
| MarkdownSpec.KindIs | web/report/markdown.go:27-48 | what a line starts, and that only rules and bullets compete |
| MarkdownSpec.FenceExtent | web/report/markdown.go:107-117 | a fenced block ends exactly with the first fence behind its first line, or with the document |
| MarkdownSpec.ListExtent | web/report/markdown.go:144-184 | a list takes exactly the lines that are items, blank with an item behind, or indented |
| MarkdownSpec.QuoteExtent | web/report/markdown.go:186-195 | a quote takes exactly the lines with its mark |
| MarkdownSpec.ParagraphExtent | web/report/markdown.go:202-213 | a paragraph takes exactly the lines that start nothing else |
| MarkdownSpec.HeadingPrinted | web/report/markdown.go:32-36 | the tags and the text of a heading on the page |
| MarkdownSpec.FencePrinted | web/report/markdown.go:107-125 | the tags and the escaped lines of a fenced block without blank end |
| MarkdownSpec.ListPrinted | web/report/markdown.go:127-173 | the tags of a list, with its first number unless it is 1, and of its items |
| MarkdownSpec.OneLineMore | web/report/markdown.go:149-163 | a marked line starts an item, and any other line that is not blank goes on with the item before it |
| MarkdownSpec.QuotePrinted | web/report/markdown.go:186-200 | the tags of a quote and the texts behind its marks |
| MarkdownSpec.ParagraphPrinted | web/report/markdown.go:202-218 | the tags of a paragraph and its trimmed lines |
| MarkdownSpec.LinesJoined | web/report/markdown.go:21 | the lines have no line feeds and give the text when joined by them |
| MarkdownSpec.CleanedTogether | web/report/markdown.go:20 | a text is cleaned part by part unless a line end is cut in two |
| MarkdownPage.PageNests | web/report/markdown.go:18-51 | for any lines every tag closes, in order, and stands where it may stand |
| MarkdownPage.ListKeepsText | web/report/markdown.go:130-173 | a list has an item, no item is empty, and the items hold the texts of all its lines in order |
| MarkdownPage.DocumentListsKeepText | web/report/markdown.go:130-173 | the same for every list block of every document |
| MarkdownPage.CodeKept | web/report/markdown.go:118-120 | only the blank lines at the end of a code block go, and all of them |
| MarkdownPage.Render | web/report/markdown.go:18-51 | cleaning, splitting, blocks and printing together |
| MarkdownPage.PageFree | web/report/markdown.go:18-51 | for every source, a NUL reaches the page if and only if some styled text has such a link |
| PageTags.VerbatimShown | web/report/markdown.go:120-124 | a code block prints no markup, and a browser shows its text |
| PageTags.PageTagged | web/report/markdown.go:18-51 | for every source, each `<` of the page starts a tag of the renderer |
| Pool.CollapsePoolRows | adc/runtime/cli/pool.go:206-233 | one record per joined key, in the order of first rows, named like the first row, holding just the pairs of its rows |
| Pool.CollapseExactIff | adc/runtime/cli/pool.go:206-233 | the records hold exactly the rows if and only if no two rows with different names share a joined key |
| Pool.NulFreeSeparates | adc/runtime/cli/pool.go:210 | models without NUL are enough for that |
| Pool.NulCollides | adc/runtime/cli/pool.go:210 | two concrete rows that share a key, of which the second is lost |
| Pool.AvailableGenes | adc/runtime/cli/pool.go:235-249 | every unused gene of the records once, ascending |
| Pool.AvailableClusters | adc/runtime/cli/pool.go:251-266 | every cluster of the gene once, ascending |
| Pool.FilterPoolRecords | adc/runtime/cli/pool.go:268-276 | the records with the pair, in order |
| PoolSampling.SampleOne | adc/runtime/cli/pool.go:181-204 | narrows by new genes with right counts until there is no room left or every gene left was chosen or has no cluster; each number picks its gene, cluster and record in ascending order; every step is printed, and it fails exactly when a line cannot be |
| PoolSampling.NarrowedHolds | adc/runtime/cli/pool.go:190-203 | what is left after some passes are the records of the pool with every pair chosen |
| PoolSampling.SampleNext | adc/runtime/cli/pool.go:163-174 | a selection has the limit that its number draws, at least one step and at most the limit, and fewer only when every gene left was chosen |
| PoolSampling.SamplePoolRecords | adc/runtime/cli/pool.go:149-179 | the number of records asked for, each a good selection drawn with its own numbers; all lines printed; the empty-pool error exactly for no rows, never the no-genes error, and otherwise an error exactly when a line cannot be printed |
| Scan.HasMarker | web/report/scan.go:76-87 | the two loops find a marker file if and only if there is one |
| Scan.ScanDir | web/report/scan.go:70-98 | the recursive walk appends exactly the specified runs and problems |
| Scan.ScannedIff | web/report/scan.go:70-98 | the walk reports a finding if and only if its directory is reached and its verdict is that finding |
| Scan.RunsExactly | web/report/scan.go:55-98 | a run is reported if and only if it is marked, readable, within the depth limit, without marked ancestor and without skipped name |
| Scan.ProblemsExactly | web/report/scan.go:72-92 | one problem for exactly each unreadable directory and each one cut off by the depth limit |
| Scan.RunsApart | web/report/scan.go:80-87 | no reported run lies inside another |
| Scan.EachOnce | web/report/scan.go:93-98 | no directory is reported twice |
| Scan.InReport | web/report/scan.go:70-98 | the two lists hold exactly the runs and the problems among the findings |
| CasePacket.BuildEntries | adc/runtime/casepacket/case_packet.go:74-94 | fails exactly on a link without a place or two files with one place; otherwise the entries are the layout, strictly increasing |
| CasePacket.LayoutIgnoresOrder | adc/runtime/casepacket/case_packet.go:78-94 | success and entries do not depend on the order or repetition of the links |
| CasePacket.IncreasingUnique | adc/runtime/casepacket/case_packet.go:92-94 | strictly increasing entries are determined by their members |
| Publish.CreateTempPath | adc/runtime/casepacket/case_packet.go:269-282 | a new empty file, or none and at most one that could not be removed |
| Publish.RemoveTemp | adc/runtime/casepacket/case_packet.go:284-295 | removes the file or reports an error; an empty name means that it was renamed |
| Publish.PublishSteps | adc/runtime/casepacket/case_packet.go:253-266 | writes and renames up to the first failure; the manifest is renamed only behind the packet |
| Publish.WriteOutputs | adc/runtime/casepacket/case_packet.go:237-267 | success: both new and nothing else changed; failure: the manifest as it was and only temporary files whose removal failed; at no moment a changed manifest without the new packet |
| Rule11.DryRunPasses | adc/runtime/eval/judge_rule11.go:507-843 | every valid fixture's dry run has no problem and scores as correct, for money, other sanctions and denials |
| Rule11.ScoredIsClean | adc/runtime/eval/judge_rule11.go:661-791 | whatever the response, a result without a problem has a ruling and flags that say what they are named after |
| Rule11.DeniedIsNeverMismatched | adc/runtime/eval/judge_rule11.go:763-779 | a rightly denied motion is never counted as a sanction mismatch |
| Rule11.RescoreTwice | adc/runtime/eval/judge_rule11.go:782-791 | rescoring is idempotent, and repairs the flags of a stored result if and only if it has a problem or a ruling |
| Rule11Spec.PayloadRead | adc/runtime/eval/judge_rule11.go:706-777 | a payload is read as its fields, unless one of the listed checks fails; then the first that does is the problem |
| Rule11Spec.CallVerdict | adc/runtime/eval/judge_rule11.go:793-811 | the same for the checks of the calls |
| Rule11Spec.ScoredExactly | adc/runtime/eval/judge_rule11.go:661-791 | for any response to a valid fixture: which problem it has, and without one the outcome is correct exactly when the fields rule as expected, to a cent for money |
| Rule11Spec.ReasonsScored | adc/runtime/eval/judge_rule11.go:782-791 | the reason is matched against reasoning and detail, and one tag is enough |
| Rule11Spec.ValidIff | adc/runtime/eval/judge_rule11.go:507-560 | a fixture is valid exactly when its texts are there, its parties are the two opponents, and its expected ruling is fair |
| Rule11Spec.ScoredUnder | adc/runtime/eval/judge_rule11.go:671-698 | a result keeps what its fixture expects and is counted under the fixture's tier, issue and movant |
| Rule11Spec.CountedExactly | adc/runtime/eval/judge_rule11.go:952-1016 | what a response to a valid fixture adds to each counter, in the fields of its payload and of the fixture |
| Rule11Spec.CountedUnder | adc/runtime/eval/judge_rule11.go:974-984 | the labels of the four tables under which it is counted |
| Rule11Summary.CountSlice | adc/runtime/eval/judge_rule11.go:985-1003 | the increments add exactly one result of its class |
| Rule11Summary.Summary.ApplyResult | adc/runtime/eval/judge_rule11.go:952-978 | counters and all tables grow by exactly this result |
| Rule11Summary.Summarize | adc/runtime/eval/judge_rule11.go:228-244 | after the loop every counter, the reason counter and all five tables are the sums over all results, by reason tag once per tag of a result |
| Rule11Summary.ConservedIff | adc/runtime/eval/judge_rule11.go:952-1016 | the total equals the five classes if and only if no result errs without a ruling that differs from the expected one |
| Rule11Summary.CleanIsConserved | adc/runtime/eval/judge_rule11.go:952-1016 | over scored results both equations between the counters hold |
| Rule11Summary.TableSums | adc/runtime/eval/judge_rule11.go:971-977 | each table sums up to the total over its items: the summary's counters for a table by one label |
| Rule11Summary.EntriesSum | adc/runtime/eval/judge_rule11.go:980-1004 | each entry of a table is the sum over just the items with its label; the items are results, or results under each of their tags |
| Rule11Summary.RescoringKeepsSums | adc/runtime/eval/judge_rule11.go:252-315 | rescoring scored results changes no counter and no table, by label or by reason tag |
| CaseGen.FormatWholeDollarAmount | adc/runtime/casegen/casegen.go:778-790 | the loop builds the digit groups of the amount, joined with commas |
| CaseGen.FormatParses | adc/runtime/casegen/casegen.go:762-790 | a printed amount reads back as itself; the first group has one to three digits and all others exactly three |
| CaseGen.ReadBack | adc/runtime/casegen/casegen.go:762-790 | out of any text without a digit in front of it, it reads back as on its own if and only if the text behind, its leading commas skipped, does not go on with a digit, or only zeros follow $0, or the amount is beyond 64 bits anyway |

## Left out

- Text: strings are sequences of Unicode characters; bytes that are not valid UTF-8 do not occur. White space is that of Go's `unicode.IsSpace`; lower case is modelled where the result is an ASCII letter.
- JSON: a tree with an encoder and a decoder that undo each other; the text syntax, the order of keys and the formatting of numbers are not modelled. The encodings of log lines have no newline. A `json.Number` where the code asks for a string counts as no string.
- Translate: tool declarations, model names and the request options around the messages.
- Reply: token usage; random ids are arbitrary inputs, by output index. Message and item maps are records, so that keys with a leading underscore are the output index alone.
- Stream: HTTP headers, the byte counter for the log, flushing, and events whose encoding fails.
- PiTailLog: editing the decoded JSON in place is modelled as updating values; a decoded tree shares no parts, so the two are the same. The message text of the marker is a constant.
- PiTailLogWriter.Writer.Write: the mutex around it, since each call is one section.
- AcpClient: notifications and requests of the peer, lines that do not decode, the wording of transport errors, stderr, the process, and the bytes of concurrent writes. A request whose encoding fails takes the same steps as one whose write fails. Ids do not wrap around at 64 bits.
- AcpClient.Client: each method is one section between two scheduling points, so the object has no threads of its own; the interleavings are those of the state machine, which has the same shared fields.
- EventTail: the display fields of a row; reading the body is one step that does not fail; bytes.TrimSpace is a parameter.
- Inline: well-formedness of inline tags and links across each other.
- MarkdownPage.Render: the return type that marks the text as trusted HTML.
- Pool: reading the CSV file.
- PoolSampling: the random numbers are any sequence, cut to the range asked for; lines are records of what they say, and the destinations are named apart but may be one and the same.
- Scan: the final sort of the runs by root name and path, and the loop over several roots; paths are lists of names, and the absolute path, which follows the relative one, is not kept. Names within one directory differ.
- CasePacket: path cleaning and confinement are one parameter from link to archive path, which rejects the empty link; checksums, sizes and the archive format.
- CasePacket.BuildEntries: sorting in place is modelled as inserting into a sorted list.
- Publish: file modes and error texts; new temporary names differ from the two output paths; writing the archive is one step that may leave part of the file.
- Rule11: the texts of the errors of Validate, matching of reason tags (a parameter), fields that are only copied from fixture to result, the state and view sent to the model, and severity weights and ratios. Amounts are reals, so that NaN does not occur.
- Rule11Summary: accuracies and rates, which are quotients of the counters.
- CaseGen: the rest of the case generator; the fraction that the amount pattern also takes is dropped by the code itself.
- The Lean engines, the command line, web handlers, remote drivers and templates.
