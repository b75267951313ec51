# Tool-call codec, generation loop and model files: a Dafny model

This project models the parts of the repository where a mistake would be hard to see from one function, and proves
what those parts promise together.

* **The tool-call codec and its incremental decoder** (`dsml/`). `Text` and `ToolText` hold strings of bytes and the
  escape scheme of argument bodies. `Markup`, `Calls` and `Grammar` are the tags of the four dialects (DSML V4, V4.1,
  GLM, Qwen), the ordered arguments, and a grammar that says which texts are blocks and what they mean. `Decode`,
  `XmlDecode`, `Completion` and `Parser` are the batch reader. `Stream` is the 19-state `StreamDecoder`, a class with the
  decoder's fields; `Phases`, `DecoderState`, `DecoderSteps`, `Transitions` and the `...Handlers` files hold its
  invariant and the proof that every handler keeps it. The invariant says that, for every continuation of the text,
  what the decoder still has to do amounts to the verdict on the whole text. `Streaming`, `Keeping`, `StreamVsBatch`,
  `EventsVsMessage`, `Reasoning` and `Divergence` compare the decoder with the batch reader, and `Completing` says when
  it signals that a block is closed or a turn complete. `BlockSpelling`, `SpelledOnly`, `XmlSpelling` and
  `XmlSpelledOnly` spell calls in every way the readers accept and show that nothing else is read. `Encode`,
  `RoundTrip`, `StructuralScan`, `MessageRoundTrip`, `Repair`, `RepairCuts`, `XmlEncode`, `XmlMessages` and `XmlTurns`
  are the writers, the repair and the round trips; `JsonEscapes`, `JsonValues` and `JsonWriting` discharge what they ask
  of a JSON library, and `JsonArguments` says what the arguments mean.
* **Generation and the tool turn** (`generation.go`, `toolloop.go`, `ds4api/session.go`). `Sessions` is the contract of
  the native session, `Generation` the loop with speculative blocks, `Listening` the callbacks around the decoder,
  `ToolTurns` the rounds of one turn with the recovery from a tool call inside the reasoning.
* **Model files** (`internal/models/gguf_merge.go`). `GgufFormat` and `GgufReader` read shards and `GgufEncoding` writes
  them; `GgufPlan` checks a set and lays out the merged header, and `GgufShards` says which sets it takes; `GgufReadBack`
  and `GgufMerge` show that the merged image reads back; `GgufAssembly` writes it and survives interruption.
* **Bounded caches** (`vision.go`, `dsml/replay.go`). `ImageCache` is the image cache with the fate of every buffer,
  `ImageCalls` any interleaving of calls over it, `Replay` the store of sampled blocks.
* **The registry around them** (`tools.go`). `Assistant` takes a completion, repairs it if that helps, and stores its
  blocks; `ToolResults` puts tool results in the order of their calls, and `ToolResultText` wraps
  them.
* **Two small formats** (`prompt_prefix.go`, `dsml/canonical.go`). `PromptPrefix` and `PrefixSpelling`; `Canonical`,
  `JsonText` (a reader by RFC 8259) and `CanonicalText`.

Strings are sequences of bytes, one character each. Tool-call text is taken with its markers already normalised. The JSON
library enters as a parameter `Json` (what quoting gives, which texts are valid, how a literal is escaped), Qwen's test
whether a value reads as JSON as another; no theorem needs more of them than it says. The network, the sampler and the native
library are parameters or nondeterministic choices with the contracts in `Sessions` and `ImageCache`.

## Findings

Where the documentation or an obvious reading promises more than the code does, the exact condition is proved.

* Reasoning on: the stream decoder ends the reasoning at the first `</think>`, the batch reader at the last one outside
  argument bodies. They agree exactly when the two coincide (`Reasoning.ThinkingAgrees`). Two families break it: a second
  closer (`Divergence.FirstOrLastCloser`), and an argument body that opens in the reasoning and never closes
  (`Divergence.OpenBodyHides`, `Divergence.OpenBodyInReasoning`).
* A replayed turn reads back behind any reasoning whose argument bodies close, quoted elements included. Reasoning that
  quotes an opening tag such as `<arg_key>` and never closes it swallows the reply: the closer written behind it is
  inside a body for the scan. `StructuralScan.TurnSplits`, `MessageRoundTrip.TurnRoundTrip`,
  `MessageRoundTrip.PlainTurnRoundTrip` and `XmlTurns.XmlTurnRoundTrip` have the exact condition for written turns,
  `XmlTurns.QuotedElements` both inputs.
* Reasoning deltas depend on how the text is cut, because a `<think>` at the front of any buffer is dropped
  (dsml/stream.go:279-281): `12345678<think>XY` in one chunk keeps the tag and as `12345678<think>X`, `Y` loses it. Nothing
  but such tags is ever lost (`Streaming.DecodeChunks`), so reasoning without them does not depend on the cuts
  (`Streaming.ChunkingDoesNotMatter`).
* The stream decoder promises that tool events are never shown for a block the batch reader rejects
  (dsml/stream.go:45-49), although it checks literals unescaped and the batch reader as written. The promise holds when
  validity does not depend on that (`EventsVsMessage.ShownIsNeverMalformed`), and under RFC 8259 it does not
  (`JsonEscapes.ShownIsReturned`). The arguments the two report still differ exactly for literals that hold an escaped
  close tag (`EventsVsMessage.EventsNameCalls`, `Divergence.EscapedLiteralDiffers`).
* A block followed by Unicode white space other than four ASCII bytes is a call for the batch reader and content for the
  stream (`Divergence.WideSpaceAfterBlock`); so is a call without wrapper at the bare end of the text
  (`Divergence.BareInvokeAtEnd`). `StreamVsBatch.ParsedBlockIsStreamed` has the exact condition.
* GLM names with `<`, and names and keys of GLM and Qwen with white space around them, are written but do not read back:
  the readers trim them (`XmlEncode.GlmReadsBack`, `XmlEncode.QwenReadsBack`).
* A JSON null argument is written as an empty string by all writers, so it reads back as one (`Divergence.NullIsEmpty`).
* Qwen values that read as JSON are escaped when written and not unescaped when read; `XmlEncode.QwenRoundTrip` says what
  comes back for them.
* A literal (a number, an object, a Boolean) under a parameter name that ends in `string=` reads back as a string: the
  search for the attribute finds the end of the name (dsml/decode.go:374-386). Every other name reads back with its
  type (`RoundTrip.ParamTagReads`), and the round trips say so for whole turns.
* A native failure in the very round in which the callback had already cancelled is reported as success
  (toolloop.go:72): then the session need not hold the last token. `ToolTurns.CompleteTurn` therefore promises the
  lockstep of session and text only when every round ended without a native failure; `ToolTurns.HiddenFailures` says which
  successes hide one.
* A rewind to position 0 may leave the session without a checkpoint and still succeed
  (`Sessions.Session.RewindSynced`).
* Results of unknown calls are documented to rank first (tools.go:1130). They rank with the first call, so a result of that
  call which arrived earlier stays in front of them (`ToolResults.UnknownsFirst`, `ToolResults.UnknownNotFirst`).
* The segments of a multimodal tool result are escaped one by one, so joined directly they can form a close tag
  (`ToolResultText.SegmentsMustStayApart`); with an image between any two of them they cannot (`ToolResultText.SegmentsHold`).
* A prefix file whose content ends in a carriage return loses it when written with a plain line feed; written with a
  carriage return and line feed it survives (`PrefixSpelling.RenderReadsBack`, `PrefixSpelling.SpelledReadsBack`).

## Model

| member | source | states |
|---|---|---|
| `ToolText.EscapeToolText` | dsml/tooltext.go:35-55 | the early exit and the loop together compute `Escape`, the spelling the next four rows are about |
| `ToolText.UnescapeToolText` | dsml/tooltext.go:58-79 | the early exit and the loop together compute `Unescape` |
| `ToolText.RoundTrip` | dsml/tooltext.go:15-79 | for every body and every close tag, unescaping the escaped body gives the body back |
| `ToolText.EscapedBodyStaysOpen` | dsml/tooltext.go:28-55 | an escaped body never contains its close tag |
| `ToolText.EscapedBodyEndsAtTag` | dsml/tooltext.go:28-55 | behind an escaped body the first close tag is the one that was written there, whatever follows |
| `ToolText.FirstCloseEndsBody` | dsml/decode.go:323-328 | searching for the first close tag behind any body that holds none finds the body's end (for escaped bodies: the row above) |
| `ToolText.UnescapeShortens` | dsml/tooltext.go:58-79 | unescaping changes a text exactly when an escaped close occurs in it, and then makes it strictly shorter |
| `Calls.OrderedArgs.Set` | dsml/decode.go:401-410 | a new key goes to the end, a key already there keeps its place and gets the new fragment; keys stay distinct |
| `Calls.OrderedArgs.Build` | dsml/decode.go:414-427 | the object with the entries in insertion order |
| `Decode.FindToolBlockStart` | dsml/decode.go:219-259 | the earliest wrapper or bare invoke of any spelling, with no opener before it, and where its line breaks start; none only when the text has none |
| `Decode.ParseParam` | dsml/decode.go:305-334 | one parameter is read: the arguments grow by exactly it, and the scan of the rest is the same; an error means the block is malformed. Which parameters these are: `SpelledOnly.ParsedExactly` |
| `Decode.ParseToolCalls` | dsml/decode.go:264-343 | accepts exactly the blocks the grammar closes, with the calls of the grammar, the text behind the block, and the block's own bytes for replay |
| `Parser.ReadUntilStop` | dsml/dsml.go:91-104 | the text up to the first end-of-sentence token |
| `Parser.RawMessage` | dsml/decode.go:196-212 | a malformed reply degrades to content up to the end-of-sentence token, with the reason and without calls |
| `Parser.ParseBlocks` | dsml/decode.go:134-173 | the message of a reply in a block dialect, all error paths included |
| `Parser.ParseXml` | dsml/glm.go:193-217 | the message of a reply in GLM or Qwen, all error paths included |
| `Parser.ParseText` | dsml/decode.go:106-173 | the loops over a whole completion return `ParseCompletion`, the message the round trips and the stream theorems below are about, in all four dialects |
| `Completion.LastStructuralIndex` | dsml/tooltext.go:101-130 | the last occurrence outside every argument body; an unterminated body ends the scan |
| `XmlDecode.GlmParseOneCall` | dsml/glm.go:260-317 | one GLM call: accepted exactly when the grammar accepts it, with the same name, arguments and rest |
| `XmlDecode.GlmParseToolCalls` | dsml/glm.go:225-256 | a run of adjacent GLM calls, accepted exactly when the grammar closes it, with its calls and the text behind it |
| `XmlDecode.QwenParseOneCall` | dsml/qwen.go:287-346 | one Qwen call: accepted exactly when the grammar accepts it, with the same name, arguments and rest |
| `XmlDecode.QwenParseToolCalls` | dsml/qwen.go:249-276 | a run of adjacent Qwen calls, accepted exactly when the grammar closes it |
| `Encode.EscapeAttr` | dsml/dsml.go:129-146 | the escaped attribute the tag reader of the round trip undoes |
| `Encode.ParameterElement` | dsml/encode.go:223-234 | refuses exactly the names that are no attribute and else writes the element that reads back |
| `Encode.EncodeArguments` | dsml/encode.go:186-216 | the parameter elements of the arguments in order, or an error for exactly the inputs with a bad key |
| `Encode.RenderToolCall` | dsml/encode.go:118-131 | one invoke element, or an error for exactly the calls with a bad name or key |
| `Encode.RenderToolCalls` | dsml/encode.go:154-174 | the whole block, or an error if any call is refused: the text the round trips start from |
| `XmlEncode.RenderGlmToolCalls` | dsml/glm.go:127-165 | the GLM text of the calls, or an error for exactly the calls with a bad name or key or without an argument object |
| `XmlEncode.RenderQwenToolCalls` | dsml/qwen.go:113-159 | the Qwen text of the calls, or an error for exactly the calls with a bad name or key or without an argument object |
| `Stream.StreamDecoder.constructor` | dsml/stream.go:133-139 | a fresh decoder: nothing read, nothing shown, and for every text to come its verdict is the whole text's |
| `Stream.StreamDecoder.Write` | dsml/stream.go:147-179 | any chunk, cut anywhere, is taken in and events are only appended. In terms of the text so far: the decoder is done exactly when no continuation can change the verdict; until then it reports a closed block exactly when the text holds one that is over; it knows a tool stanza in open reasoning exactly when the text holds one; plain text is held back by at most a marker's length; and the reasoning deltas so far spell the reasoning read so far, but for dropped `<think>` tags |
| `Stream.StreamDecoder.Close` | dsml/stream.go:184-216 | the events of the whole run show exactly the verdict on the whole text, the reasoning deltas spell the text in front of the first `</think>` but for dropped `<think>` tags, and the message is the batch reader's |
| `Stream.StreamDecoder.Process` | dsml/stream.go:218-271 | the loop ends, with nothing left to do until more input arrives, and the input is the same |
| `Stream.StreamDecoder.Handle` | dsml/stream.go:222-268 | one turn of the loop in any of the 19 states: for every continuation of the text the verdict is unchanged, events are only appended, what was consumed stays accounted for, and bytes or the rank of the state go down unless the decoder waits |
| `Stream.StreamDecoder.ProcessThinking` | dsml/stream.go:277-301 | one turn of `Handle` while reasoning is open: what it shows continues the reasoning read, a `<think>` in front of the buffer is dropped, and reasoning is never entered again |
| `Stream.StreamDecoder.ScanThinkingForToolStanza` | dsml/stream.go:308-332 | the incremental scan finds a complete stanza opening exactly when the whole text so far holds one |
| `Stream.StreamDecoder.ProcessContent` | dsml/stream.go:334-372 | one turn of `Handle` in content of the block dialects |
| `Stream.StreamDecoder.ProcessInToolCalls` | dsml/stream.go:374-431 | one turn of `Handle` inside a block: wrapper, invoke, close tag, end of a block without wrapper, fallback |
| `Stream.StreamDecoder.ProcessInInvoke` | dsml/stream.go:433-457 | one turn of `Handle` at an invoke header |
| `Stream.StreamDecoder.ProcessInInvokeBody` | dsml/stream.go:459-485 | one turn of `Handle` between parameters |
| `Stream.StreamDecoder.ProcessInParameter` | dsml/stream.go:487-509 | one turn of `Handle` at a parameter header |
| `Stream.StreamDecoder.ProcessInParameterValue` | dsml/stream.go:511-551 | one turn of `Handle` at a value: its fragments and the recorded argument |
| `Stream.StreamDecoder.ProcessCheckingToolBlockEnd` | dsml/stream.go:553-583 | one turn of `Handle` behind a block: accepted in front of the end-of-sentence token, held back while one may come, else replayed |
| `Stream.StreamDecoder.ProcessRaw` | dsml/stream.go:585-597 | one turn of `Handle` after a fallback |
| `Stream.StreamDecoder.CompleteInvoke` | dsml/stream.go:603-635 | a call is recorded with its closing events, or the block falls back when its arguments are no JSON |
| `Stream.StreamDecoder.CompleteToolBlock` | dsml/stream.go:637-649 | the pending events, and nothing else, are shown |
| `Stream.StreamDecoder.EnterRawMode` | dsml/stream.go:653-673 | the pending events are dropped and exactly the consumed, unshown bytes are shown as content |
| `Stream.StreamDecoder.SafeContentLen` | dsml/stream.go:863-884 | nothing in front of the result can still become part of a marker, and text longer than a marker is never held back whole |
| `Stream.StreamDecoder.ProcessXmlContent` | dsml/stream.go:699-721 | one turn of `Handle` in content of GLM and Qwen |
| `Stream.StreamDecoder.ProcessGlmName` | dsml/stream.go:724-754 | one turn of `Handle` at a GLM name |
| `Stream.StreamDecoder.ProcessGlmArgKey` | dsml/stream.go:757-793 | one turn of `Handle` at a GLM key or the end of a call |
| `Stream.StreamDecoder.ProcessGlmArgValue` | dsml/stream.go:796-813 | one turn of `Handle` at a GLM value |
| `Stream.StreamDecoder.ProcessAfterCall` | dsml/stream.go:817-840 | one turn of `Handle` behind a call in GLM or Qwen: a further call, the end, or the fallback |
| `Stream.StreamDecoder.ProcessQwenFn` | dsml/stream.go:1038-1070 | one turn of `Handle` at a Qwen function header |
| `Stream.StreamDecoder.ProcessQwenParam` | dsml/stream.go:1073-1104 | one turn of `Handle` at a Qwen parameter header or the end of the function |
| `Stream.StreamDecoder.ProcessQwenParamValue` | dsml/stream.go:1107-1128 | one turn of `Handle` at a Qwen value |
| `Stream.StreamDecoder.ProcessQwenAfterFn` | dsml/stream.go:1131-1143 | one turn of `Handle` at the end of a Qwen call |
| `Streaming.DecodeChunks` | dsml/stream.go:175-216 | for every text, chunking, dialect and setting of reasoning: the events show the verdict on the whole text, the reasoning deltas spell what is in front of the first `</think>` but for dropped `<think>` tags, the message is the batch reader's, and where the reasoning has one end (always, with reasoning off) the tool events name the message's calls |
| `Streaming.ChunkingDoesNotMatter` | dsml/stream.go:861-884 | two chunkings of one text give identical tool events, identical content up to the two line breaks in front of an accepted block, and identical reasoning wherever it holds no `<think>` |
| `Keeping.DecideKeepsBytes` | dsml/stream.go:184-212 | the verdict on a text whose calls are not accepted shows all of it, but for what an end-of-sentence token cuts off |
| `Streaming.BytesConserved` | dsml/stream.go:653-687 | in every reachable state before the end of the sentence, reasoning off: content shown, open block and buffer spell the text |
| `Completing.ClosedWhenOver` | dsml/stream.go:147-149 | a decoder that waits for input reports a closed block exactly when the scan of the block behind the first marker of its text (behind the reasoning) is closed: for a wrapped block with at most white space and a beginning of the end-of-sentence token behind it, for one without wrapper at the first text that is no call |
| `Completing.DoneWhenDecided` | dsml/stream.go:152-154 | a decoder that waits is done exactly when every continuation of its text has the same verdict |
| `Completing.CompleteWhenSignalled` | toolloop.go:57-61 | its two signals together say exactly that the turn's text needs no more |
| `SpelledOnly.StreamedExactly` | dsml/stream.go:374-583 | both block dialects, all spellings: the stream decoder shows calls exactly for the texts that are plain content, a spelling of these calls and ASCII white space up to the end of the sentence, when their arguments are JSON and, without wrapper, the end-of-sentence token comes. Tags may carry any attributes, white space may stand between elements, a parameter without a string attribute is a string |
| `SpelledOnly.ParsedExactly` | dsml/decode.go:264-390 | the batch reader returns calls exactly for the texts that spell some, with any white space behind, and returns those and the content in front |
| `BlockSpelling.SpelledReads` | dsml/decode.go:305-390 | what each reader makes of every spelled block: the calls it spells, or none exactly when their arguments, as that reader records them, are not JSON |
| `BlockSpelling.AttributeFound` | dsml/decode.go:374-390 | in a tag that is a list of attributes the search by name and quote finds the first attribute of that name, or none, whatever the others are |
| `BlockSpelling.PlainCallIsString` | dsml/decode.go:318-320 | a block whose parameter has no string attribute is such a spelling, of a string |
| `XmlSpelledOnly.GlmExactly` | dsml/glm.go:178-317 | GLM: plain content and a spelled run of calls is read as exactly these by both readers, depending on the white space behind; any other text makes no calls for either |
| `XmlSpelledOnly.QwenExactly` | dsml/qwen.go:157-346 | Qwen: the same |
| `StreamVsBatch.StreamedBlockIsParsed` | dsml/stream.go:45-49 | a block whose calls the stream shows: the batch reader returns the same calls and content if their literals are JSON as written, and otherwise reports a malformed block |
| `StreamVsBatch.ParsedBlockIsStreamed` | dsml/stream.go:553-583 | of the blocks the batch reader closes, the stream accepts exactly those whose arguments stay JSON once unescaped, with only ASCII white space behind and, without wrapper, an end-of-sentence token |
| `StreamVsBatch.XmlStreamedIsParsed` | dsml/stream.go:817-840 | GLM and Qwen: the stream shows the calls exactly when only ASCII white space follows; the batch reader returns the same calls when any white space does |
| `StreamVsBatch.XmlMalformed` | dsml/glm.go:205-208 | GLM and Qwen calls malformed for one reader are malformed for the other |
| `StreamVsBatch.ArgumentsAgree` | dsml/stream.go:549 | the two readers build the same arguments exactly when every parameter that survives under its key has the same fragment in both |
| `StreamVsBatch.FragmentsSpell` | dsml/stream.go:511-547 | the argument fragments of any call, joined: with distinct keys the object the batch reader returns, without parameters the empty object, with a repeated key the object up to the repeat, unclosed, and then the whole object |
| `EventsVsMessage.EventsNameCalls` | dsml/stream.go:184-216 | reasoning off: as many calls as the message has, the same names, and each call's final arguments equal the message's exactly when no surviving literal holds an escaped close tag; the one case with a malformed message is a literal that is JSON only once unescaped |
| `EventsVsMessage.ShownIsNeverMalformed` | dsml/stream.go:45-49 | if validity of JSON does not depend on how a close tag inside a literal is escaped, tool events are never shown for a message the batch reader rejects |
| `JsonEscapes.ShownIsReturned` | dsml/stream.go:45-49 | the same with nothing assumed, for the validity check of RFC 8259 |
| `Reasoning.ThinkingAgrees` | dsml/decode.go:123-132 | reasoning on: stream and batch read the same reply exactly when the first `</think>` is the last one outside argument bodies; what each reads otherwise |
| `Reasoning.ReasoningKeeps` | dsml/decode.go:125 | trimming never adds or removes a `</think>` in the reasoning |
| `Reasoning.ThinkingEventsNameCalls` | dsml/stream.go:277-301 | the statement of `EventsNameCalls` for reasoning on, wherever the two splits agree |
| `Divergence.FirstOrLastCloser` | dsml/stream.go:283 | in either block dialect, a text on which the splits differ: two closers in a row |
| `Divergence.OpenBodyInReasoning` | dsml/decode.go:123-132 | a text on which the splits differ that way: the stream shows "hi", the batch reader keeps everything as reasoning |
| `Divergence.WideSpaceAfterBlock` | dsml/stream.go:1016-1026 | for every written block: with a no-break space behind it the batch reader returns its calls and the stream shows it as content |
| `Divergence.BareInvokeAtEnd` | dsml/decode.go:279-283 | for every written call: alone, without wrapper, at the bare end of the text the batch reader returns it and the stream shows it as content |
| `Divergence.EscapedLiteralDiffers` | dsml/stream.go:549 | every literal with an escaped close tag is reported differently by the two readers |
| `Divergence.EscapedLiteralExists` | dsml/stream.go:549 | every spelling has such a literal |
| `Divergence.NullIsEmpty` | dsml/encode.go:196-197 | a null argument and an empty string are written alike in all dialects |
| `RoundTrip.ReadableWhenJson` | dsml/encode.go:186-216 | with a JSON library that keeps three promises, calls with valid names whose literals are JSON meet the condition of the round trips |
| `JsonWriting.ReadableInStandard` | dsml/encode.go:186-216 | the grammar of RFC 8259 and the string writer of the canonical form keep the three promises, so such calls meet it with nothing assumed |
| `JsonValues.TextSame` | dsml/encode.go:204-212 | a JSON text means the same when a `<` inside it is spelled as a JSON escape, and when a comma or a closing brace follows it |
| `JsonArguments.ArgumentsMean` | dsml/decode.go:401-427 | read by RFC 8259, the arguments either reader records are exactly the object of its parameters: a string means its text, a literal its value |
| `JsonArguments.LastWins` | dsml/decode.go:401-410 | under every key that object holds what the last parameter of the key means, and it has no other keys |
| `JsonArguments.DistinctInOrder` | dsml/decode.go:414-427 | with distinct keys its members are the parameters in order |
| `JsonArguments.RequestMeans` | dsml/encode.go:186-216 | a written call reads back with arguments that mean the object written, null as the empty string and a literal under a name that ends in `string=` as a string |
| `JsonArguments.TurnMeans` | dsml/encode.go:347-361 | a written turn whose literals are JSON reads back with its content, its reasoning and, call by call, the name and the object that were written, with nothing assumed about a library |
| `RoundTrip.ParamTagReads` | dsml/decode.go:374-386 | a written parameter tag reads back with its name, and with its type unless it is a literal whose name ends in `string=` |
| `StructuralScan.TurnSplits` | dsml/tooltext.go:101-130 | a replayed turn is split at the closer written behind its reasoning exactly when every argument body that opens in the reasoning closes there and the reply holds no structural `</think>` |
| `MessageRoundTrip.TurnRoundTrip` | dsml/encode.go:347-361 | DSML V4 and V4.1, any reasoning: `<think>`, reasoning, `</think>`, content, written calls and end-of-sentence read back as reasoning, content and calls in order exactly when the argument bodies of the reasoning close and the reply has no structural `</think>` (for content whose own bodies close: when the content has none), though values may hold close tags, `</think>` or end-of-sentence text |
| `MessageRoundTrip.PlainTurnRoundTrip` | dsml/encode.go:347-361 | all four dialects, any reasoning: a turn without calls reads back under the same exact condition, unless its content holds a marker the block readers complain about; then exactly that is reported |
| `MessageRoundTrip.ReplyStreams` | dsml/stream.go:553-583 | the stream decoder shows a written reply's content and calls |
| `XmlEncode.GlmRoundTrip` | dsml/glm.go:223-317 | written GLM calls read back with the same names, keys and string values, whatever follows that opens no further call |
| `XmlEncode.GlmReadsBack` | dsml/glm.go:260-317 | of the calls the GLM writer accepts, one reads back exactly when its name has no white space around it and no `<`, and its keys have no white space around them |
| `XmlEncode.QwenRoundTrip` | dsml/qwen.go:249-346 | written Qwen calls read back: every value that does not read as JSON is the string it was, leading and trailing line breaks included |
| `XmlEncode.QwenReadsBack` | dsml/qwen.go:287-346 | of the calls the Qwen writer accepts, one reads back exactly when neither its name nor a key has white space around it |
| `XmlMessages.XmlReplyReads` | dsml/glm.go:178-217 | a GLM or Qwen reply with calls: the batch reader returns content and calls, and the stream shows the same |
| `XmlTurns.XmlTurnRoundTrip` | dsml/tooltext.go:101-130 | GLM and Qwen, any reasoning: a thinking turn with calls reads back under the exact condition of `TurnRoundTrip`, though values may hold close tags or `</think>` |
| `XmlTurns.QuotedElements` | dsml/tooltext.go:101-130 | in every dialect, reasoning that quotes a whole argument element meets that condition and reasoning that quotes only its opening tag does not |
| `Repair.RepairCompletion` | dsml/repair.go:28-80 | counting and appending compute `Repaired`, which the next two rows are about |
| `Repair.CutTurnRecovered` | dsml/repair.go:28-80 | a thinking turn of V4 or V4.1 that lost only its wrapper's close tag is repaired to the text that was written, and that reads back reasoning, content and calls, exactly when the argument bodies of the reasoning close; for values that hold none of the dialect's tags |
| `Repair.CutReplyRecovered` | dsml/repair.go:28-80 | the same for a reply without reasoning |
| `RepairCuts.CutsRepaired` | dsml/repair.go:8-20 | every cut of a written reply, behind reasoning or not: it is repaired, by exactly the lost close tag, exactly when it falls between two calls; cut in front of the block, inside a call or nowhere it stays as it is |
| `RepairCuts.CutCallIsLeftOpen` | dsml/repair.go:60-68 | in particular a call that is cut short, inside a value or elsewhere, is never closed |
| `ToolResultText.RenderToolResult` | dsml/encode.go:312-314 | the wrapper around the escaped payload |
| `ToolResultText.ResultsReadBack` | tools.go:993-1016 | results joined into one user turn are told apart again, whatever they hold: close tags, opening tags, escaped spellings of them |
| `ToolResultText.JoinedApart` | tools.go:993-1016 | different lists of results never give the same turn |
| `ToolResultText.RenderToolResultParts` | dsml/encode.go:323-333 | each segment escaped, the wrapper around the first and the last, one segment included |
| `ToolResultText.SegmentsHold` | dsml/encode.go:316-322 | no segment but the last holds a close tag, and the last only at its end |
| `ToolResultText.SegmentsMustStayApart` | dsml/encode.go:316-322 | two segments whose join holds an early close tag: the promise is one for segments with images between them |
| `Assistant.ParseAssistant` | tools.go:511-533 | the strict reading, or the repaired one exactly when only that has calls |
| `Assistant.CutTurnAdopted` | tools.go:516-526 | a turn whose wrapper was not closed is adopted as the turn that was written: behind reasoning exactly when the argument bodies of the reasoning close, and without reasoning always |
| `Assistant.RememberCalls` | tools.go:545-551 | each call's block is stored under its id, in order; an error exactly when some text is no block, with the calls in front of the first such one stored |
| `Assistant.BlockIsStored` | tools.go:545-551 | for the calls of a wrapped block there is no error and all are stored |
| `ToolResults.OrderToolResultsByCall` | tools.go:1131-1158 | the nested loops and the sort in place give, run by run, the order the next rows are about |
| `ToolResults.RunByItsCalls` | tools.go:1135-1155 | every run is sorted by the calls of the last assistant turn before it that has any |
| `ToolResults.RanksArePlaces` | tools.go:1137-1143 | a result's rank is the position of the last call of its id, or 0 when no call has it |
| `ToolResults.ResultsFollowCalls` | tools.go:1126-1158 | of two results in one run of the answer, the first answers a call that is not behind the other's; the results of one call are those that arrived, in their order |
| `ToolResults.SortedIsStable` | tools.go:1153-1155 | a run comes out sorted by call, and results of one rank as they came |
| `ToolResults.StableSortIsUnique` | tools.go:1153-1155 | there is only one stable sort: it does not matter which the library uses |
| `ToolResults.ArrivalForgotten` | tools.go:1126-1130 | two runs come out the same exactly when the results of each rank came in the same order |
| `ToolResults.ParallelResults` | tools.go:1126-1130 | results of different calls come out in call order however they arrived |
| `ToolResults.PlacesKept` | tools.go:1144-1151 | other messages stay where they were and results within their runs |
| `ToolResults.OrderedPermutes` | tools.go:1131-1158 | no message is lost or repeated |
| `ToolResults.OrderedTwice` | tools.go:1131-1158 | ordering what is ordered changes nothing |
| `ToolResults.UnknownsFirst` | tools.go:1130 | results of unknown calls come first exactly when no result of the first call arrived before one of them |
| `ToolResults.UnknownNotFirst` | tools.go:1130 | two results that show it: the first call's, then an unknown one, stay in that order |
| `Sessions.Session.Eval` | ds4api/session.go:493-502 | the contract of the native call: one token more, or a failure, which is recorded and after which nothing is promised |
| `Sessions.Session.EvalSpeculativeArgmax` | ds4api/session.go:505-529 | the contract of the native call: any run of most likely tokens that starts with the given one, or none, and the session grown by exactly it |
| `Sessions.Session.EvalSpeculative` | ds4api/session.go:1047-1088 | the contract of the native call at a positive temperature: only the first token is known |
| `Sessions.Session.RewindSynced` | ds4api/session.go:611-642 | the session is cut to the position with a checkpoint and the images that survive; a span the cut splits is refused |
| `Generation.ShouldSampleGreedy` | generation.go:136-141 | a non-positive temperature is always greedy |
| `Generation.Draw` | generation.go:203-218 | the drawn token is the most likely one (the excluded one aside) when the mode is greedy, else what the sampler gives for the session's tokens, its images and the generator, which moves on; a session without checkpoint is noticed |
| `Generation.PlainStep` | generation.go:296-305 | one token is heard and evaluated |
| `Generation.TakeRun` | generation.go:256-294 | every accepted token up to the first stop, cancellation or change of mode is heard, and the session holds exactly those; under exact sampling the mode was asked for after each |
| `Generation.CutBack` | generation.go:256-294 | no cut goes below the block's start, and a prompt image before it is neither split nor dropped |
| `Generation.SpeculativeStep` | generation.go:222-295 | one speculative block hears the drawn token first and at most what is left, and leaves the session where token-by-token decoding would; it fails only when a native call did |
| `Generation.Turn` | generation.go:195-306 | one turn of the loop: its first token is the one drawn for the mode that was answered, it stops exactly on a stop token, and it ends early only for a stop, a cancelled context, a lost checkpoint, a split image or a failed native call |
| `Generation.RunIsGreedy` | generation.go:222-295 | an accepted run of most likely tokens is a prefix of token-by-token decoding, which goes on behind it |
| `Generation.GreedyEnds` | generation.go:307-310 | and it is all of it when the allowance is used up or the next token stops |
| `Generation.DrawnIsDecoded` | generation.go:195-311 | the tokens of a run whose drawings chain from the seed are sampled decoding: the reference that takes the pick or the sampler's token, as its mode says, and threads the generator |
| `Generation.GreedyIsDecoded` | generation.go:136-141 | at a non-positive temperature that reference is greedy decoding, whatever the seed |
| `Generation.NeverGreedy` | generation.go:136-141 | without speculation and with a control that never asks for the most likely token, a run that ends by itself is the whole sampled run up to the allowance or a stop |
| `Generation.Continue` | generation.go:144-311 | unless a native call fails: the session is its start followed by the returned tokens, none a stop token, at most context size minus one long, never cut below its start. At a non-positive temperature the result is token-by-token greedy decoding whatever was speculated. At any temperature every drawing is the pick or the sampler's token for the generator that the seed and the drawings before have led to, as the control answered; without speculation the result is the whole of that decoding. It ends only for a stop, the allowance, a cancelled context, a lost checkpoint, a split image or a failed native call |
| `Listening.Listener.OnToken` | toolloop.go:302-310 | each token is counted and its text recorded; it cancels the round exactly when the text needs no more (a closed block, or nothing can change the verdict) or, with recovery on, reasoning that is still open holds a stanza, and says which |
| `Listening.Listener.Emit` | toolloop.go:48-64 | text is recorded and decoded until the turn needs no more, exactly then it stops, and nothing is recorded after |
| `Listening.Listener.RecordInjection` | toolloop.go:80-89 | the forced closing tag is recorded once: before it the decoder was still reasoning, and after it never is again |
| `ToolTurns.Start` | toolloop.go:312-316 | the first round starts from exactly the prompt |
| `ToolTurns.Resume` | toolloop.go:317-324 | a round of generation from the session, with what is left of the budget: the outcome and the drawings of `Continue` |
| `ToolTurns.Recover` | toolloop.go:329-350 | the closing tag's tokens are forced, all of them, exactly when they can be had and leave budget and room; otherwise nothing is |
| `ToolTurns.Pursue` | toolloop.go:66-97 | what follows a round: the end, another round behind the recovery exactly when the decoder had asked for one, or a failure with its reason |
| `ToolTurns.CompleteTurn` | toolloop.go:66-97 | the ledger is the rounds: each is generation from where the one before left off, followed by the forced closing tag exactly when the stanza is still open and it can be forced. Text and budget agree with the steps, the budget is never overspent, at most one injection, no stop token; the events show the verdict on the text, and the turn is stopped exactly when that text needs no more. A success ends for that, for the budget, or for a stop token behind what was generated, and alone at a non-positive temperature it is all of greedy decoding of the prompt; a failure has a failed native call, an ended context, an unavailable closing tag, or a round that met the end of the context, no checkpoint or an image it would split |
| `ToolTurns.HiddenFailures` | toolloop.go:64-88 | a turn reported as a success hides the failure of a native call exactly when the decoder had cancelled that round, and there are such turns |
| `ToolTurns.UnforcedIsAll` | toolloop.go:290-325 | a greedy turn without injection whose budget is used up or whose next token stops is all of token-by-token decoding of the prompt |
| `ToolTurns.EndedWhy` | toolloop.go:303-324 | a round that ends by itself has used the budget up, or the token drawn next stops |
| `ToolTurns.UnforcedIsGreedy` | toolloop.go:290-325 | a greedy turn without injection is token-by-token decoding of the prompt, over however many rounds |
| `GgufFormat.AlignIsNext` | internal/models/gguf_merge.go:19 | aligning never shrinks and adds less than one step |
| `GgufFormat.AlignedIsMultiple` | internal/models/gguf_merge.go:19 | at the merged file's alignment the result is a multiple of it, and aligning again changes nothing |
| `GgufFormat.LERoundTrip` | internal/models/gguf_merge.go:212 | a number written in k little-endian bytes reads back, within their range |
| `GgufReader.Reader.Read` | internal/models/gguf_merge.go:45-57 | the next bytes if there are that many, else an error that stays, nothing read |
| `GgufReader.Reader.Num` | internal/models/gguf_merge.go:58-71 | the little-endian number of the next bytes |
| `GgufReader.Reader.Value` | internal/models/gguf_merge.go:73-104 | a value of any kind is skipped as far as the walk over byte offsets goes, arrays nested up to the limit; `GgufEncoding.ValueReadsBack` says what that walk accepts |
| `GgufReader.ReadGguf` | internal/models/gguf_merge.go:105-211 | the whole header is read exactly as `ReadHeader` on byte offsets reads it, all refusals included; which files that accepts: `GgufEncoding.ReadExactly` |
| `GgufEncoding.ReadExactly` | internal/models/gguf_merge.go:105-211 | a file is read as a header exactly when it is the encoding of metadata (numbers of their width, Booleans, strings, arrays nested up to the limit) and a tensor list, with an alignment key or without, within the limits, and then the header is the one encoded |
| `GgufEncoding.ShardReads` | internal/models/gguf_merge.go:105-211 | every encoded shard reads back |
| `GgufEncoding.ValueReadsBack` | internal/models/gguf_merge.go:73-104 | the walk over a value ends where its encoding does, for every type |
| `GgufPlan.WriteHeader` | internal/models/gguf_merge.go:276-296 | the merged header, padded, and the size of the data behind it |
| `GgufPlan.MakePlan` | internal/models/gguf_merge.go:214-297 | the shard sets that are accepted, and the plan: exactly the reference plan |
| `GgufShards.PlannedWhenNumbered` | internal/models/gguf_merge.go:214-250 | shards that are otherwise acceptable are planned exactly when they are numbered from zero in order, each with the right count and total, the first with the architecture and an alignment key |
| `GgufReadBack.HeaderReadsBack` | internal/models/gguf_merge.go:105-211 | a file that begins with the planned header and is as long as planned reads back, whatever its data is |
| `GgufMerge.MergedReadsBack` | internal/models/gguf_merge.go:214-297 | every accepted shard set within the reader's limits: the merged image reads back with the tensors in shard order, the same names, shapes, kinds, sizes and bytes, at aligned offsets, under shard 0's metadata without split keys |
| `GgufAssembly.PendingFile.Write` | internal/models/gguf_merge.go:357-359 | what reaches the file is a prefix of what was to be written, all of it on success |
| `GgufAssembly.Assembler.Append` | internal/models/gguf_merge.go:343-362 | what the file already holds is compared, the rest is written; at every point the file is a beginning of the image or untouched |
| `GgufAssembly.CopyTensor` | internal/models/gguf_merge.go:368-385 | a tensor in pieces of at most 16 MiB and its padding land where the image has them |
| `GgufAssembly.CopyShard` | internal/models/gguf_merge.go:367-386 | one shard's tensors, in order, at their places in the image |
| `GgufAssembly.Merge` | internal/models/gguf_merge.go:301-386 | done leaves exactly the image; a file that is no beginning of it is refused with no byte written; any interruption leaves a beginning of it. Every other end has its reason: a shard that is no GGUF file, shards without a plan, the wrong size, a failed system call or a cancellation |
| `GgufAssembly.RerunsEndAlike` | internal/models/gguf_merge.go:301-386 | over any number of interrupted runs on one file: it stays a beginning of the one image the shards have, no rerun refuses it or the shards, and the run that completes leaves the image |
| `ImageCache.ImageEncoder.constructor` | vision.go:80-88 | an empty cache with the default limits |
| `ImageCache.ImageEncoder.Lookup` | vision.go:122-139 | a hit moves its key to the front, the others keeping their order (`ImageCache.FrontThenOthers`), and is answered with a fresh copy, made under the lock, exactly when the library can copy; a miss changes nothing |
| `ImageCache.ImageEncoder.Insert` | vision.go:154-175 | cached, in front of what eviction leaves, exactly when the key is new and the limits of that moment allow it, else freed and nothing else changes |
| `ImageCache.ImageEncoder.SetLimits` | vision.go:91-97 | the new limits hold when it returns, and exactly what eviction under them takes is gone |
| `ImageCache.ImageEncoder.Evict` | vision.go:182-191 | the loop frees from the back until there is room |
| `ImageCache.FrontThenOthers` | vision.go:122-124 | moving a key to the front leaves the others in their order |
| `ImageCache.EvictDownIsSound` | vision.go:182-191 | what is left is consistent and has room; only cached buffers were freed |
| `ImageCache.LeastRecentGoFirst` | vision.go:182-191 | the most recently used entries stay, as they were, and no more went than had to |
| `ImageCalls.Calls.Begin` | vision.go:115-139 | a call starts: on a hit it returns with its copy if the library can copy, otherwise it takes note of the byte budget and goes on without the lock |
| `ImageCalls.Calls.Encode` | vision.go:141-153 | the unlocked part: an image that is not cacheable under the noted budget is handed out, any other also copied; it returns nothing exactly when the library cannot encode or copy, and frees what was made |
| `ImageCalls.Calls.Insert` | vision.go:154-175 | the caller gets its copy; the fresh buffer is cached in front exactly when its key is new and it fits the limits of now, else freed |
| `ImageCalls.Calls.Run` | vision.go:115-175 | every interleaving of calls and resizes: order list, map and byte count agree, non-negative limits hold, what was freed or handed out stays so, a returned call keeps its answer, and a call that was begun, encoded and inserted has returned |
| `ImageCalls.Calls.Conserved` | vision.go:115-175 | with no call under way every buffer is exactly one of cached, freed and handed out |
| `ImageCalls.Calls.Answered` | vision.go:115-175 | a returned buffer belongs to no other call and was encoded from an image of the requested key |
| `Replay.ReplayStore.constructor` | dsml/replay.go:26-35 | an empty store; a capacity that is not positive means 100000 |
| `Replay.ReplayStore.Remember` | dsml/replay.go:38-74 | an id already there moves to the end with the new block, a new one may push out the oldest; text that is no block is an error and changes nothing |
| `Replay.ReplayStore.LookupBlock` | dsml/replay.go:92-115 | a block exactly when all ids have it |
| `Replay.ReplayedUntilFull` | dsml/replay.go:38-115 | a block is found again exactly as long as its ids and the new ids remembered since fit the store together |
| `Replay.ParsedBlockIsStored` | dsml/decode.go:154-165 | every call of a wrapped block that parses carries the sampled bytes, and the store accepts them |
| `Replay.SampledIsReplayed` | tools.go:1067-1087 | such a block is written back byte for byte exactly as long as its calls and the ids remembered since fit the store |
| `PromptPrefix.ParsePromptPrefix` | prompt_prefix.go:23-86 | the nested loops return the turns or the error, with its line, of the turn-by-turn reader |
| `PromptPrefix.FindTurnEnd` | prompt_prefix.go:52-65 | the next line that opens a marker, and its number |
| `PrefixSpelling.SpelledReadsBack` | prompt_prefix.go:23-86 | every accepted spelling of a list of turns (byte order mark, blank, tab or nothing behind the marker, either line end, none at the end) reads back as the turns |
| `PrefixSpelling.ReadWhenSpelled` | prompt_prefix.go:23-86 | a text is read exactly when it is such a spelling; then turns alternate, an assistant last, and no content is empty or holds a NUL or a marker line |
| `PrefixSpelling.RenderReadsBack` | prompt_prefix.go:23-86 | plainly written turns read back exactly when they alternate, end with an assistant, and no content is empty, holds a NUL or a marker line after the first, or ends in a carriage return |
| `Canonical.Writer.WriteString` | dsml/canonical.go:138-164 | the literal whose bytes read back (`CanonicalText.CanonicalReadsBack`) |
| `Canonical.Writer.Value` | dsml/canonical.go:43-84 | one value of the token stream is written, or refused when too deep or out of range |
| `Canonical.Writer.ObjectBody` | dsml/canonical.go:86-113 | the loop over members writes them in order |
| `Canonical.Writer.ListBody` | dsml/canonical.go:115-132 | the loop over items writes them in order |
| `Canonical.CanonicalJson` | dsml/canonical.go:28-41 | exactly one value and nothing behind it |
| `Canonical.CanonicalIs` | dsml/canonical.go:28-132 | on the tokens of values: accepted exactly when there is one, at most 64 deep and with finite numbers; the result is the text of that value |
| `CanonicalText.CanonicalReadsBack` | dsml/canonical.go:28-164 | the text of a value, read by section 2 to 7 of RFC 8259, is the same value: order, strings and number lexemes |
| `CanonicalText.CanonicalOfText` | dsml/canonical.go:28-41 | exactly the JSON texts of values within the limits have a canonical form |
| `CanonicalText.CanonicalTwice` | dsml/canonical.go:28-41 | canonicalising keeps the value, and twice is once |
| `CanonicalText.SameFormSameValue` | dsml/canonical.go:16-27 | two accepted texts have the same canonical form exactly when they hold the same value |

## Left out

- Marker normalisation (dsml/decode.go:14-23): texts are taken as already normalised.
- The JSON library: quoting, validity and Qwen's test for JSON are parameters. RFC 8259 is one instance, without the nesting
  limit of Go's library; its reader takes texts as valid UTF-8.
- Error texts: errors are told apart, their wording is not modelled.
- Which `<think>` tags inside the reasoning a given chunking drops.
- Invalid UTF-8 inside attribute values, which Go's library would replace.
- The fallback of tools.go that always prints V4 tags (tools.go:1053-1064), tool sections and the rest of prompt
  rendering: the round trips start from the writers in `dsml/`.
- The library's sort of tool results, modelled as an insertion sort in place (`ToolResults.StableSortIsUnique`).
- Coercion of GLM and Qwen argument types by tool schema (tools.go).
- The outer loop of `ToolLoop.Run`, which executes tools; one turn of it is modelled.
- `WantsGreedySampling` (dsml/stream.go:959-978) is any Boolean: the answers are recorded, and every result
  holds whatever they are.
- Cancellation inside the native prompt synchronisation; it either succeeds or fails.
- The checksum, syncing, linking and deleting at the end of a merge, and wrap-around of sums of sizes beyond 64 bits in the
  plan, which are exact here.
- Hash collisions between images: a hit is promised to be of an image with the same key.
- Ids given to tool calls: they are taken as fresh, as the registry's counter makes them.
- The rest of the repository: native bindings, downloads, catalogs, the web, language-server and workspace tools.
- Stream.StreamDecoder.Write: does not say which part of the text a single chunk's content and tool events cover; only the whole run's are fixed.
- Repair.CutTurnRecovered: only for values without the dialect's tags, since the repair counts tags anywhere in the text.
- RepairCuts.CutsRepaired: likewise only for values without the dialect's tags.
