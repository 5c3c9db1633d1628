# Agent Beacon: a verified model of capture, delivery and event identity

Beacon records what AI agents do. This project models the parts of it whose correctness spans many
steps, and proves what they are for:

- **Stream capture** (browser extension). Chunks of server-sent events from many tabs are cut into
  events, folded into one turn per stream by a Claude or a ChatGPT parser, and kept apart by an
  assembler. `Sse`, `SseStream`, `SseLines`, `Json`, `Claude`, `ChatGptDoc`, `ChatGptAlias`, `ChatGpt`,
  `ChatGptParsing`, `ChatGptFrames`, `Assembler`, `Capture`, `Background`.
- **Durable delivery** (browser extension). A stored queue behind a promise-chain lock, with retries,
  an alarm, and a worker that may be killed between any two steps. `Delivery`, `DeliveryTasks`,
  `DeliveryLedger`.
- **Duplicate suppression and event identity** (Go). A pairwise rule, the writer's filter over the tail
  of a log, the verifier's batch filter, and the derived event ID. `Dedupe`, `DedupeLines`, `Identity`.
- **Printers and bounds.** Shell quoting against a POSIX lexer, host-independent path joining, a UTF-8
  byte budget, fixed-width timestamps. `Shell`, `Paths`, `CapBytes`, `Timestamps`.
- **Scanning loops** with exact specifications. `Invariants`, `PathElement`.

`Text` holds the string operations several modules share. `dafny verify dfyconfig.toml` checks
everything.

Code that rewrites fields is a class whose methods are proved against functions (`SSEParser`,
`ClaudeParser`, `ChatGptParser`, `Assembler`, `Background`, `DeliveryQueue`), or a method with loops. The ChatGPT
document is a heap of mutable objects (`JsObject`) with an alias into it; `Tree` is the shape of such a
heap, and `Shows` ties parser, document and alias to a plain value, the `Mirror`. A `Link`
(`ChatGptAlias`) records which parts a captured message left behind still shares with the document. An
exception is an `Outcome` that threw. Concurrency is a step relation (`DeliveryTasks.Next`). JSON
decoding, case mapping, white space and SHA-1 are function parameters, so what is proved holds for
whatever they do.

The functions the methods are proved against are tied down in turn by laws that do not mention them: what
one line, frame, payload, flush or pair of log lines does, in its own words and with the numbers and
names written out. `ChatGptFrames` and `DedupeLines` hold nothing else; in the other modules they stand
beside the functions.

## What the code does not keep

Where the code falls short of what its comments or its purpose promise, the exact condition is proved,
with a witness.

- A stream cut right behind a `\r\r\n` is cut into other frames than the same stream uncut, because the
  buffer is normalised again (`SseStream.ChunkInvarianceExactly`). In the events that can show exactly
  where the line so ended is blank, an event name or data (`SseLines.CrCrLfShowsExactly`, with
  `SseStream.CrCrLfChangesAnEvent` as witness).
- An event that throws takes the later events of its chunk along, so there the turn depends on the cuts
  (`Capture.ThrowingShowsTheCuts`). In a Claude stream that is a payload of `null`: every cut takes in
  every closed event exactly when none but the last is one (`Capture.ClaudeAllCuts`). In a ChatGPT stream
  it is a path that is no string, a patch item that is `null`, or a primitive for a container
  (`Capture.ChatGptRuns`, `Capture.BadPathShowsTheCuts`).
- A stream whose end throws emits no turn and stays in the assembler's map, so `active` stays positive
  (`Assembler.HeldExactlyWhileOpen`, `Assembler.ActiveCountsOpenStreams`, `Capture.StreamEmits`). For
  Claude that is a `null` left to be flushed (`Capture.ClaudeEndThrows`, `Capture.NullTailThrows`), for
  ChatGPT also a captured message whose parts are present and no array (`Capture.ChatGptEndThrows`).
- An object merged into the ChatGPT message itself leaves the captured message behind: text appended
  later still reaches it, unless the object brought a content of its own (`ChatGpt.MergeKeepsTheText`).
- A worker killed with items stored and no alarm armed leaves them until something else flushes, and so
  does a storage call rejected inside the only flush there is. Without such a crash or rejection
  something is always set to run, and one more flush drains the queue whatever happened before
  (`DeliveryLedger.StrandedExactly`, `DeliveryLedger.OneFlushDrains`, with
  `DeliveryTasks.CrashStrandsQueue` and `DeliveryTasks.RejectStrandsQueue` as witnesses).
- The 60 s cap on the retry delay is never reached (`Delivery.BackoffNeverCapped`).
- The duplicate rule is not symmetric when two instants lie 2^63 ns or more apart: the difference
  saturates and its negation wraps (`Dedupe.SymmetricExactly`, `Dedupe.CenturiesApart`).
- Two lines that are duplicates by call ID get two event IDs when a NUL inside a session or workspace
  hides that their sessions or targets differ, or when white space around one spoils its decoding
  (`Identity.OneCallOneId` has the exact condition, `Identity.NulPartsWays` is a witness).
- An MCP server whose name ends in an odd number of underscores, or starts with `mcp__`, gets two
  targets from its two spellings (`Dedupe.SpellingsAgree`).
- Under a UNC root with no share the first name joined on turns into the share
  (`Paths.StepwiseExactly`).
- Events 2^64 ns apart are reported as sharing an instant (`Invariants.FarApartReported`).

## Model

| member | source | states |
|---|---|---|
| Sse.ParseFrame | browser-extension/src/adapters/sse.ts:41-56 | the loop takes the last `event` value (one leading space stripped) and all `data` values joined by line feeds, ignores blanks and comments, and is silent exactly when there is no data and only the default name |
| Sse.FieldReads | browser-extension/src/adapters/sse.ts:44-50 | `name: value` and `name:value` say the same value, a line without a colon the empty one, a comment and a blank line nothing |
| Sse.SSEParser.Push | browser-extension/src/adapters/sse.ts:14-27 | emits the events of the frames closed by a blank line and keeps the open rest, already normalised |
| Sse.SSEParser.Flush | browser-extension/src/adapters/sse.ts:30-38 | emits the event of what is buffered and empties the buffer |
| Sse.BlankSaysNothing | browser-extension/src/adapters/sse.ts:31-34 | the early exit on a buffer that trims to nothing never loses an event |
| SseStream.CutParts | browser-extension/src/adapters/sse.ts:18-21 | splitting loses no character: frames and rest written out again are the text, and every frame is closed |
| SseStream.PushResumes | browser-extension/src/adapters/sse.ts:14-27 | without `\r\r\n`, cutting a text after its buffered part has been cut already gives the frames of the whole text |
| SseStream.ChunkInvariance | browser-extension/src/adapters/sse.ts:14-27 | any two ways of cutting one text without `\r\r\n` into chunks give the same frames and leave the same buffer |
| SseStream.EventsOfText | browser-extension/src/adapters/sse.ts:14-38 | the events of all pushes and the final flush are those of the text pushed at once |
| SseStream.ChunkInvarianceExactly | browser-extension/src/adapters/sse.ts:14-27 | for every text: all cuts give the same frames and buffer if and only if it holds no `\r\r\n` |
| SseStream.CrCrLfSplits | browser-extension/src/adapters/sse.ts:18-21 | every text with `\r\r\n` in it is told apart by a cut right behind it |
| SseStream.CrCrLfChangesAnEvent | browser-extension/src/adapters/sse.ts:18-21 | for every data value without line ends there is a stream whose event keeps or loses a carriage return by where it is cut |
| SseLines.CrCrLfShowsExactly | browser-extension/src/adapters/sse.ts:14-56 | behind every line a cut right after `\r\r\n` can change the events, in some surroundings, if and only if the line is blank, names an event or holds data |
| SseStream.RoundTrip | browser-extension/src/adapters/sse.ts:14-56 | printing any events whose names hold no line end and whose data holds no carriage return, cutting the text anywhere and parsing it gives back exactly those events and an empty buffer |
| SseStream.StreamIsInterpreted | browser-extension/src/adapters/sse.ts:14-56 | the events are those of an interpreter of the text's lines that looks at each line on its own, in the manner of section 9.2.6 of the HTML Living Standard, with the final flush as one more blank line |
| Claude.ClaudeParser.HandleData | browser-extension/src/adapters/claude.ts:71-78 | empty data, the sentinel and text that does not decode change nothing, a `null` payload throws, anything else is one step |
| Claude.ClaudeParser.Handle | browser-extension/src/adapters/claude.ts:80-136 | the branches of one payload change all fields together as one step of a pure fold does |
| Claude.ClaudeParser.ReadUsage | browser-extension/src/adapters/claude.ts:152-159 | each input count is replaced when the payload has a number for it and kept otherwise |
| Claude.ClaudeParser.GetTurn | browser-extension/src/adapters/claude.ts:161-202 | no turn without text, blocks and prompt; otherwise the turn `Claude.TurnSays` describes, its text the response and its prompt that of the request |
| Claude.StreamSays | browser-extension/src/adapters/claude.ts:71-159 | over any payloads: the text is all text deltas in order, each count and the model is the last one reported (output tokens by `message_delta` alone), complete exactly when some payload says so |
| Claude.BlocksStayOrdered | browser-extension/src/adapters/claude.ts:99-111 | the block map lists every index once, in order of first appearance |
| Claude.BlocksAreStreamed | browser-extension/src/adapters/claude.ts:99-120 | the block map lists the started indices in order of first start, and holds for each the content block of its last start and the argument text streamed since |
| Claude.PayloadSteps | browser-extension/src/adapters/claude.ts:80-136 | for each kind of payload: the fields it changes, to what, and that no other field changes |
| Claude.TurnSays | browser-extension/src/adapters/claude.ts:161-202 | over any payloads, field by field: prompt and session of the request, text of all deltas, last message identifier, model, counts and completion, the fallbacks, and as tools the `tool_use` blocks in order of first start with the ID and name of their last start and the arguments since, decoded where they decode |
| ChatGptDoc.Build | browser-extension/src/adapters/chatgpt.ts:83-89 | decoding builds new objects, none of them shared, that hold the value |
| ChatGptDoc.Locate | browser-extension/src/adapters/chatgpt.ts:180-192 | the walk ends at the container and key the path names in the document's shape, or finds none, or comes to a primitive, where the assignment will throw |
| ChatGptDoc.GraftIsSet | browser-extension/src/adapters/chatgpt.ts:208-213 | one assignment to the located object is exactly an assignment at that path of the plain document |
| ChatGptDoc.NoTargetNoSet | browser-extension/src/adapters/chatgpt.ts:180-192 | where the walk finds no object to assign to, assigning at the path leaves the document as it is |
| ChatGptDoc.TargetReads | browser-extension/src/adapters/chatgpt.ts:194-197 | what is found in the located slot is what the plain document holds at the path |
| ChatGptDoc.MergeObjects | browser-extension/src/adapters/chatgpt.ts:200-202 | the merged object is new, holds both sets of properties with the later ones winning, and shares only the kept parts |
| ChatGptAlias.LinkedGraft | browser-extension/src/adapters/chatgpt.ts:180-213 | one assignment below a value changes another one exactly where the two share, and leaves them sharing what it did not replace |
| ChatGptAlias.SlotGraft | browser-extension/src/adapters/chatgpt.ts:180-213 | the same for the document and the captured message, whatever merges and replacements at the message came before |
| ChatGptParsing.ChatGptParser.SetAt | browser-extension/src/adapters/chatgpt.ts:208-213 | writing in place changes the document exactly at the path, and the captured message exactly as far as the path leads through parts it shares; on a primitive container it throws and changes nothing |
| ChatGptParsing.ChatGptParser.AppendAt | browser-extension/src/adapters/chatgpt.ts:194-206 | text is concatenated, an object merged into an object, anything else replaces, with the same account of the captured message and of exceptions; one outside the document stays as it is |
| ChatGptParsing.ChatGptParser.AddAtRoot | browser-extension/src/adapters/chatgpt.ts:112-117 | a new document leaves an old capture untouched and outside it, unless the new message is visible |
| ChatGptParsing.ChatGptParser.TrackAssistant | browser-extension/src/adapters/chatgpt.ts:133-139 | the captured object is the one under `message`, given one empty text part if it has none |
| ChatGptParsing.ChatGptParser.ApplyOp | browser-extension/src/adapters/chatgpt.ts:110-130 | an operation, nested patches included, does to objects and alias what the pure language does to the mirror, up to one that throws; while it adds no visible root the captured object stays the same one, and one outside the document keeps its value |
| ChatGptParsing.ChatGptParser.Handle | browser-extension/src/adapters/chatgpt.ts:89-108 | a decoded frame changes document, alias, cursor, session and completion as the pure frame function says, and throws when it does |
| ChatGptParsing.ChatGptParser.HandleEvent | browser-extension/src/adapters/chatgpt.ts:72-108 | the same for an event: empty data, the sentinel, `delta_encoding` and undecodable data included |
| ChatGptParsing.ChatGptParser.ResponseText | browser-extension/src/adapters/chatgpt.ts:141-143 | the strings among the captured objects' parts, joined, are the text of the captured message's value; none where the code throws, on parts that are no array |
| ChatGptParsing.ChatGptParser.GetTurn | browser-extension/src/adapters/chatgpt.ts:141-169 | text, message identifier, model and search groups, read off the captured objects, are those of the captured message's value, with the fallbacks for a missing session or identifier; parts that are no array throw |
| ChatGptFrames.PathLeads | browser-extension/src/adapters/chatgpt.ts:180-182 | a path written with slashes before its names leads along those names |
| ChatGptFrames.DeltaWrites | browser-extension/src/adapters/chatgpt.ts:110-130 | an `add` below the root, a `replace` or an `append` at a path whose container is there writes one slot of it: the value given, or for `append` the old text with the new behind it, or both objects' properties; off the path the document reads as before |
| ChatGptFrames.DeltaThrows | browser-extension/src/adapters/chatgpt.ts:180-213 | such a delta throws and leaves the document when its container is a string, number or boolean, or its path no string |
| ChatGptFrames.DeltaMisses | browser-extension/src/adapters/chatgpt.ts:184-189 | and does nothing when the way to the container ends in a null or a missing slot |
| ChatGptFrames.DeltaOnText | browser-extension/src/adapters/chatgpt.ts:110-143 | on the text of the captured message, `append` puts text behind it and `add` and `replace` put other text in its place |
| ChatGptFrames.RootDelta | browser-extension/src/adapters/chatgpt.ts:112-139 | an added root is captured when its message is an assistant's addressed to nobody or to all, and then given one empty part if it has no list of parts; otherwise the old capture stays with what it holds |
| ChatGptFrames.PatchIsItsFrames | browser-extension/src/adapters/chatgpt.ts:126-128 | a patch does what its items do as frames of their own, one without a path at the root, up to one that throws |
| ChatGptFrames.OddItem | browser-extension/src/adapters/chatgpt.ts:126-128 | an item that is null ends a patch with an exception, a string, number or boolean does nothing |
| ChatGptFrames.OtherDelta | browser-extension/src/adapters/chatgpt.ts:105-130 | any other operation, and a patch that is no array, only moves the cursor |
| ChatGptFrames.TypedFrame | browser-extension/src/adapters/chatgpt.ts:90-102 | a typed frame that is no delta: a token names the session if none is known, an end completes, any other changes nothing |
| ChatGptFrames.TypedDelta | browser-extension/src/adapters/chatgpt.ts:90-107 | a typed frame with a value and an operation or a path is the delta it would be without its type |
| ChatGptFrames.EventSays | browser-extension/src/adapters/chatgpt.ts:72-87 | which events complete, which say nothing, and which are frames |
| ChatGptFrames.TurnSays | browser-extension/src/adapters/chatgpt.ts:141-169 | the turn of a captured message with a list of parts, field by field: the joined strings, the prompt, and session, key and model with their fallbacks |
| ChatGptFrames.NoPartsSay | browser-extension/src/adapters/chatgpt.ts:141-144 | without parts the text is empty, and with parts that are no list the code throws |
| ChatGpt.CaptureFollowsDocument | browser-extension/src/adapters/chatgpt.ts:110-143 | while no operation adds a root or writes the message slot itself, the captured message stays the document's own |
| ChatGpt.CaptureFrozen | browser-extension/src/adapters/chatgpt.ts:112-143 | whatever was captured before, after a root that is no visible assistant message no operation changes the captured message until a visible one is added |
| ChatGpt.VisibleRootAttaches | browser-extension/src/adapters/chatgpt.ts:133-139 | a visible root attaches the capture again whatever came before, and its text can be read |
| ChatGpt.TokensAccumulate | browser-extension/src/adapters/chatgpt.ts:105-143 | once the parser appends to the one text part of the captured message, any run of bare tokens is joined on in order, and the text read is all that was said |
| ChatGpt.DroppingRepeated | browser-extension/src/adapters/chatgpt.ts:105-108 | a delta may leave out `o` or `p` when it repeats the current one |
| ChatGpt.InheritedAcrossControls | browser-extension/src/adapters/chatgpt.ts:89-108 | and it may leave out what the previous delta gave, with any control events in between |
| ChatGpt.PatchIsItsOps | browser-extension/src/adapters/chatgpt.ts:126-128 | a patch, at any depth of nesting, does what its written-out operations do in order, up to a null item or another operation that throws |
| ChatGpt.FramesAreOps | browser-extension/src/adapters/chatgpt.ts:89-130 | a run of frames does to document and capture what its operations, inheritance filled in, do in order, and throws where they do |
| ChatGpt.EventIsOps | browser-extension/src/adapters/chatgpt.ts:72-108 | an event does what the operations it stands for do, and throws exactly when they do |
| ChatGpt.ThrowsExactly | browser-extension/src/adapters/chatgpt.ts:110-130 | a run of operations throws if and only if some patch item is null, some path that is to be split is no string, or some operation reached comes to a primitive for a container |
| ChatGpt.MergeKeepsTheText | browser-extension/src/adapters/chatgpt.ts:194-206 | after an object is merged into the message, appended text reaches the captured message too, unless the object has a content of its own: then it never does |
| Assembler.KeysDistinguish | browser-extension/src/background/assembler.ts:18-20 | keys are equal exactly for one request number of one tab, no tab counting as -1 |
| Assembler.Assembler.Handle | browser-extension/src/background/assembler.ts:23-51 | one event changes only its own key's parser, returns a turn only on an end that does not throw, keeps the entry when one does, and keeps parser objects unshared |
| Assembler.OpensIs | browser-extension/src/background/assembler.ts:26-33 | a call opens a parser exactly when it is a request the first adapter for its host accepts, and then that adapter's parser, given the request |
| Assembler.ErrorEndsLikeDone | browser-extension/src/background/assembler.ts:42-48 | after any calls, an `error` event leaves the same map and emits the same turns as a `done` event |
| Assembler.RequestStartsAfresh | browser-extension/src/background/assembler.ts:26-33 | from an accepted request on, parser and turns of its key are those of a run that begins with it, whatever the key held |
| Assembler.StreamsAreIndependent | browser-extension/src/background/assembler.ts:23-51 | in every interleaving the turns of one key, and its parser, are those of that key's events run alone |
| Assembler.HeldExactlyWhileOpen | browser-extension/src/background/assembler.ts:26-48 | a key is held exactly while an accepted request of it is neither done nor failed, or when its last end threw |
| Assembler.ActiveCountsOpenStreams | browser-extension/src/background/assembler.ts:53-56 | the active count is the number of open streams and of those stuck because their end threw, and there are none of these if no end throws |
| Capture.ClaudeOnChunk | browser-extension/src/adapters/claude.ts:62-64 | the event parser and the Claude parser together move as the pure stream does, an exception ending the loop |
| Capture.ClaudeOnDone | browser-extension/src/adapters/claude.ts:66-69 | the same for the final flush |
| Capture.ChatGptOnChunk | browser-extension/src/adapters/chatgpt.ts:64-66 | the event parser and the heap of the ChatGPT parser together move as the pure stream does, an exception ending the loop |
| Capture.ChatGptOnDone | browser-extension/src/adapters/chatgpt.ts:68-70 | the same for the final flush |
| Capture.ChatGptEach | browser-extension/src/adapters/chatgpt.ts:64-66 | over all events of a chunk, while none adds a visible root, the captured object stays the same one and outside the document keeps its value |
| Capture.ChatGptGetTurn | browser-extension/src/adapters/chatgpt.ts:141-169 | the turn read through the alias is that of the pure state, also when the captured message was merged over or left behind |
| Capture.StreamIsRun | browser-extension/src/adapters/claude.ts:62-69 | without `\r\r\n` and without an exception, chunks and flush come to one run over the events of the whole text |
| Capture.ThrowingShowsTheCuts | browser-extension/src/adapters/claude.ts:62-64 | an event that throws loses the events behind it in its chunk, so the result depends on the cuts |
| Capture.AllHandledExactly | browser-extension/src/adapters/claude.ts:62-64 | if and only if no closed event but the last throws, every cut of a text without `\r\r\n` has all its closed events handled and leaves the same buffer |
| Capture.ClaudeRuns | browser-extension/src/adapters/claude.ts:71-80 | a Claude stream throws exactly when some payload is `null` |
| Capture.ClaudeAllCuts | browser-extension/src/adapters/claude.ts:62-80 | every cut of a Claude stream takes in all its closed events if and only if none but the last is a `null`; the parser has made one step for each event taken in |
| Capture.ChatGptRuns | browser-extension/src/adapters/chatgpt.ts:72-130 | a ChatGPT stream throws if and only if some operation of its events is a null patch item or has a path to split that is no string, or one that is reached comes to a primitive for a container |
| Capture.BadPathShowsTheCuts | browser-extension/src/adapters/chatgpt.ts:89-110 | after a delta whose path is no string the sentinel completes the turn in a chunk of its own and not in the same one |
| Capture.StreamEmits | browser-extension/src/background/assembler.ts:23-51 | in every interleaving a whole stream emits the turn read off the parser its chunks led to; if its end throws it emits nothing and its key stays held |
| Capture.ClaudeEndThrows | browser-extension/src/background/assembler.ts:43-48 | closing a Claude stream throws exactly when a flushed payload is `null` |
| Capture.ChatGptEndThrows | browser-extension/src/background/assembler.ts:43-48 | closing a ChatGPT stream throws exactly when the flushed event does or the captured message has parts that are no array |
| Capture.NullTailThrows | browser-extension/src/adapters/claude.ts:66-80 | a Claude stream that stops in an unclosed `null` payload throws at its end |
| Capture.TurnOfText | browser-extension/src/background/assembler.ts:23-51 | in every interleaving a whole stream emits nothing but the turn of one run over its text's events |
| Capture.SimplestStream | browser-extension/src/background/assembler.ts:23-51 | an accepted request, one chunk and an end are a whole stream whose text is that chunk |
| Capture.SameTextSameTurn | browser-extension/src/background/assembler.ts:23-51 | two streams of one text, cut and interleaved differently, emit the same turns |
| Capture.ClaudeTurnSays | browser-extension/src/adapters/claude.ts:62-202 | payloads printed as events, cut anywhere and interleaved with anything, give one turn with their text, the request's prompt, the last model, counts and completion, the session and key with their fallbacks, and the tools used |
| Background.Background.Handle | browser-extension/src/background/assembler.ts:23-51 | over one heap of event parsers and parsers of both sites, one message does to its own stream's objects what the assembler's step does to their value, and nothing to any other's |
| Background.Background.HandleEnd | browser-extension/src/background/assembler.ts:43-48 | an end reads the turn off the objects and drops them; an exception in either step leaves them in the map |
| Background.Background.Serve | browser-extension/src/background/sw.ts:38-55 | message after message the heap holds what the run of calls comes to on values, and exactly its turns are emitted |
| Background.SitesOpen | browser-extension/src/background/assembler.ts:26-33 | an accepted request opens the parser of its host's site, Claude's before ChatGPT's, with what the adapter reads out of its number, URL, method and body, and with nothing parsed yet |
| Background.ClaudeAmongAll | browser-extension/src/background/assembler.ts:23-51 | among streams of both sites in any interleaving, a whole Claude stream without a `null` emits one turn, with its request's prompt and the text, model, counts and completion its events come to |
| Background.ChatGptAmongAll | browser-extension/src/background/assembler.ts:23-51 | the same for a ChatGPT stream that does not throw |
| Delivery.DeliveryQueue.Enqueue | browser-extension/src/background/delivery.ts:59-63 | the item is appended to what is stored |
| Delivery.DeliveryQueue.Flush | browser-extension/src/background/delivery.ts:69-89 | each item is kept, one failure older, exactly when its post failed and a failure is left; the alarm is set exactly when something is kept |
| Delivery.FlushItemByItem | browser-extension/src/background/delivery.ts:76-85 | a flush goes item by item in order: an item whose post fails stays with one failure more if it has had fewer than five, any other goes |
| Delivery.SurvivorsAged | browser-extension/src/background/delivery.ts:76-85 | every item a flush keeps was stored with one failure less, and has at most five |
| Delivery.FlushLowersPotential | browser-extension/src/background/delivery.ts:68-90 | a flush lowers the sum of (6 - attempts) by at least the length of the queue |
| Delivery.SixFlushesEmpty | browser-extension/src/background/delivery.ts:68-90 | six flushes with nothing new empty any queue, however the posts go |
| Delivery.BackoffNeverCapped | browser-extension/src/background/delivery.ts:105-115 | after a flush the delay is 500, 1000, 2000, 4000 or 8000 ms for one to five failures of the item that has failed least: always below the cap |
| DeliveryTasks.OneActive | browser-extension/src/background/delivery.ts:36-44 | the promise chain admits one critical section at a time |
| DeliveryTasks.FlushTask | browser-extension/src/background/delivery.ts:68-90 | run without another task in between, the steps of a flush leave what one flush leaves and arm the alarm exactly when something is left |
| DeliveryTasks.OtherTasks | browser-extension/src/background/delivery.ts:59-73 | the steps of an enqueue put its item, with no failures, behind what is stored and chain a flush; a flush that finds nothing ends at once |
| DeliveryTasks.NoLostUpdate | browser-extension/src/background/delivery.ts:37-90 | in every run with crashes and storage rejections, a write updates exactly what is stored at that moment |
| DeliveryTasks.LeavesStorageExcused | browser-extension/src/background/delivery.ts:59-90 | in every such run an item leaves storage only after a successful post of it or six failed ones |
| DeliveryTasks.AlarmDelayBounded | browser-extension/src/background/delivery.ts:105-115 | every alarm of every run asks for 500 to 8000 ms |
| DeliveryTasks.CrashStrandsQueue | browser-extension/src/background/delivery.ts:59-65 | a crash between the enqueue and its flush leaves an item stored and nothing left to run |
| DeliveryTasks.RejectStrandsQueue | browser-extension/src/background/delivery.ts:64-73 | a storage call rejected inside the flush leaves an item stored and nothing left to run |
| DeliveryLedger.EveryItemAccountedFor | browser-extension/src/background/delivery.ts:47-90 | in crash-free runs every item is exactly one of: waiting to be stored, queued with attempts equal to its failures, delivered by one success after at most five failures, dropped after six; queued items keep enqueue order |
| DeliveryLedger.NeverStranded | browser-extension/src/background/delivery.ts:64-122 | in crash-free runs a stored item always has a flush pending or running, or an alarm |
| DeliveryLedger.StrandedExactly | browser-extension/src/background/delivery.ts:37-122 | along every run, crashes and rejections included, something is set to run for stored items at every moment if and only if each crash came with nothing stored or the alarm armed, and each rejection with one of these or another task that brings a flush |
| DeliveryLedger.OneFlushDrains | browser-extension/src/background/delivery.ts:68-122 | from every reachable state, crashes and rejections included, after one more flush call the worker comes to rest only with an empty queue |
| DeliveryLedger.InternalStepsLower | browser-extension/src/background/delivery.ts:37-122 | every step the worker takes on its own lowers one measure |
| DeliveryLedger.InternalRunsEnd | browser-extension/src/background/delivery.ts:37-122 | so in any run, crashes and rejections included, the worker's own steps end after no more than the measure |
| DeliveryLedger.QuietMeansDelivered | browser-extension/src/background/delivery.ts:47-122 | and when nothing is left to do the queue is empty and every item delivered once or dropped after six failures |
| Dedupe.CanonicalTarget | pkg/asymptoteobserve/dedupe.go:237-252 | the loop trims, lowers and respells each value, keeps those that say something, and joins them behind the prefix |
| Dedupe.SpellingsAgree | pkg/asymptoteobserve/dedupe.go:239-244 | `mcp__server__tool` and `mcp:server:tool` come to one spelling if and only if the server's name does not start with `mcp__` and ends in an even number of underscores |
| DedupeLines.TrimMeans | pkg/asymptoteobserve/dedupe.go:239 | trimming takes white space off both ends and nothing else |
| DedupeLines.CleaningMeans | pkg/asymptoteobserve/dedupe.go:239-241 | a value is trimmed and lowered, and loses one `mcp:` and then one `mcp__` in front |
| DedupeLines.ColonsMean | pkg/asymptoteobserve/dedupe.go:242 | two underscores become a colon, the leftmost pair first |
| DedupeLines.TargetTable | pkg/asymptoteobserve/dedupe.go:201-252 | for each action, which fields identify it, in which order and behind which prefix; values that say nothing are left out |
| DedupeLines.ReportsExactly | pkg/asymptoteobserve/dedupe.go:136-174 | a line counts if and only if it decodes to an event of one of the seven actions with a session, a real timestamp and a target |
| Dedupe.KeyMeans | pkg/asymptoteobserve/dedupe.go:159-173 | keys are equal exactly when action, session, workspace and target are, as long as no session or workspace holds a NUL |
| Dedupe.DuplicateMeans | pkg/asymptoteobserve/dedupe.go:80-111 | the decision in plain terms: one call by ID, or two capture paths within the window; and the two cases 64-bit durations add |
| DedupeLines.LinesAreDuplicates | pkg/asymptoteobserve/dedupe.go:64-111 | when a second line repeats a first, in what the lines hold: one action, and one call ID, or two harnesses no further apart than the window given, 2 s if none is, and 10 s at least for `tool.completed` |
| Dedupe.SymmetricExactly | pkg/asymptoteobserve/dedupe.go:80-111 | the decision is the same both ways round if and only if it is not about lookalikes 2^63 ns or more apart |
| Dedupe.CenturiesApart | pkg/asymptoteobserve/dedupe.go:106-110 | a report of 2000 makes one of 1700 a duplicate, and not the other way round |
| Dedupe.NotTransitive | pkg/asymptoteobserve/dedupe.go:80-111 | the relation is not transitive |
| Dedupe.IsDuplicateEndpointEvent | pkg/asymptoteobserve/dedupe.go:30-50 | true exactly when some line in the log's tail makes the candidate a duplicate |
| DedupeLines.TailCounts | pkg/asymptoteobserve/dedupe.go:113-134 | of a longer log only the last 262144 bytes matter |
| DedupeLines.ShortLogCounts | pkg/asymptoteobserve/dedupe.go:30-50 | in a log that is no longer a line is a duplicate exactly when some line repeats it, and never when the log cannot be read |
| Dedupe.CollapseDuplicates | beacon-sandbox/check/expect.go:233-253 | the nested loop keeps exactly the lines no kept line before them makes a duplicate |
| Dedupe.KeptIsKernel | beacon-sandbox/check/expect.go:233-253 | what is kept is an ordered choice without a duplicate among them, and every dropped line duplicates an earlier kept one |
| Dedupe.KernelUnique | beacon-sandbox/check/expect.go:233-253 | only one choice of lines is like that |
| Dedupe.KeptAgain | beacon-sandbox/check/expect.go:233-253 | a second run drops nothing more |
| Dedupe.KeptBothWays | pkg/asymptoteobserve/dedupe.go:64-111 | among the lines kept none duplicates a later one, and a later one duplicates an earlier one only across centuries |
| Dedupe.WriterKeepsTheSame | pkg/asymptoteobserve/dedupe.go:30-50 | while the log fits the 256 KiB tail, appending only what the writer's filter lets through leaves exactly the lines of the batch filter |
| Identity.EventUuid | pkg/asymptoteobserve/identity.go:112-125 | copying, overwriting bytes 6 and 8 and slicing the hex give the stamped digest in 8-4-4-4-12 form |
| Identity.EventIdForLine | pkg/asymptoteobserve/identity.go:80-99 | the branches hash a call's name where there is one and the line itself otherwise |
| Identity.HashInput | pkg/asymptoteobserve/identity.go:80-116 | the bytes hashed: the sixteen of the namespace, then `call` with session, action, target and call ID between NULs where the line decodes and has the last two, and `content` with the line itself otherwise |
| Identity.IdShape | pkg/asymptoteobserve/identity.go:117-124 | every ID is 36 characters of hex and hyphens with version 5 and variant 10 (sections 4.1.3 and 4.1.1 of RFC 4122) |
| Identity.IdReads | pkg/asymptoteobserve/identity.go:116-124 | the hex digits read back are the first sixteen bytes of the digest, but for version 5 and variant 2 in the seventh and the ninth |
| Identity.SameIdExactly | pkg/asymptoteobserve/identity.go:117-124 | two digests give one ID exactly when they agree on every bit not overwritten |
| Identity.SameInputExactly | pkg/asymptoteobserve/identity.go:80-116 | two lines hash the same input exactly when both name a call and agree on session, action, target and call ID, or neither does and they are one line; sessions and targets without NUL assumed |
| Identity.OneCallOneId | pkg/asymptoteobserve/identity.go:80-99 | two lines that are one call to the duplicate rule hash one input, whatever the window, if and only if they are one line, or both decode untrimmed and session, action and target run together alike: sessions equal, if no target holds a NUL; always, if no session or workspace does |
| Identity.NulPartsWays | pkg/asymptoteobserve/dedupe.go:167-172 | with a NUL in a session or workspace that fails |
| Shell.QuoteAll | beacon-sandbox/runner/guest.go:329-335 | the loop fills a slice with each argument's quotation |
| Shell.QuoteText | beacon-sandbox/runner/shell.go:72 | in plain text: single quotes around, and each single quote inside closed, escaped and reopened |
| Shell.QuoteSpells | beacon-sandbox/runner/shell.go:72 | in a POSIX shell a quotation adds exactly the quoted string to the word under way, whatever is in it |
| Shell.QuoteAllLexes | beacon-sandbox/runner/guest.go:329-335 | lexing the space-joined quotations by sections 2.2.1 to 2.2.3 of the POSIX Shell Command Language gives back exactly the arguments, empty ones included |
| Shell.BuildClaudeFlags | beacon-sandbox/runner/runner.go:548-564 | lexed behind `claude`, the flags are the arguments the agent should get: prompt, fixed options, budget, joined tools and disallowed tools, each value one unchanged word |
| Shell.ClaudeTextsSpell | beacon-sandbox/runner/runner.go:548-564 | every printed flag spells the word it stands for |
| Shell.SessionLexesTwice | beacon-sandbox/runner/shell.go:109-120 | lexed by the outer shell the script is the `beacon ci exec` command word for word, and its last word lexed again by `sh -c` is the `claude` command word for word, the prompt one unchanged word; both redirections and the report follow |
| Shell.DockerLine | beacon-sandbox/runner/guest.go:91-127 | the last line of the wrapper lexes to docker's arguments word for word: the options that are set, the three names passed through, container, `sh` and script |
| Paths.JoinIsPlace | cli/beacon-hooks/cmd/cline_event.go:486-517 | the join on a rooted root or a bare drive is its volume and, under one separator, the place that following root and relative path leads to |
| Paths.VolumeIs | cli/beacon-hooks/cmd/cline_event.go:521-541 | a volume is a drive letter and its colon, or two separators, a server, a separator and a share, or a server alone, or nothing |
| Paths.SeparatorIs | cli/beacon-hooks/cmd/cline_event.go:487-502 | the separator put in is a backslash exactly when the root has no slash but a backslash or a drive |
| Paths.StepsLead | cli/beacon-hooks/cmd/cline_event.go:486-517 | one more name leads a directory down, `..` up but not past the top, `.` and an empty name nowhere |
| Paths.PlainJoins | cli/beacon-hooks/cmd/cline_event.go:486-517 | names joined onto a POSIX root or onto a drive with backslashes, in plain text |
| Paths.LooseIsWay | cli/beacon-hooks/cmd/cline_event.go:486-517 | the join on any other root is its drive if it has one, as many `..` as root and path go up in all, and the names they go down |
| Paths.JoinIsCanonical | cli/beacon-hooks/cmd/cline_event.go:462-517 | it is rooted, starts with the root's own volume, and past that has one kind of separator and no empty, `.` or `..` segment |
| Paths.AnchoredExactly | cli/beacon-hooks/cmd/cline_event.go:462-517 | every join on a root is rooted if and only if the root is rooted or a bare drive letter |
| Paths.OnePathPerPlace | cli/beacon-hooks/cmd/cline_event.go:486-517 | two relative paths are recorded alike exactly when they lead to one place |
| Paths.StaysBelow | cli/beacon-hooks/cmd/cline_event.go:486-517 | without `..` a path stays below its root |
| Paths.JoinStepwise | cli/beacon-hooks/cmd/cline_event.go:486-541 | joining in two steps is joining once |
| Paths.StepwiseExactly | cli/beacon-hooks/cmd/cline_event.go:521-541 | for every rooted root or bare drive that holds for all paths if and only if the root is no UNC server without a share |
| Paths.VolumeFoundAgain | cli/beacon-hooks/cmd/cline_event.go:521-541 | a whole volume is split off again in front of any rooted tail |
| Paths.RecordedPathIsRooted | cli/beacon-hooks/cmd/cline_event.go:448-454 | a path that starts with a separator, or a drive and one, is kept, and so is any path without a root; under a rooted root or a bare drive every recorded path but the empty one is rooted |
| CapBytes.DecodeUtf8 | browser-extension/src/shared/normalize.ts:36-40 | the encoder is UTF-8 (section 3 of RFC 3629): decoding gives back the scalar values, U+FFFD for lone surrogates |
| CapBytes.Utf8Forms | browser-extension/src/shared/normalize.ts:36-40 | byte by byte, the four forms of section 3 of RFC 3629, each the shortest for its value |
| CapBytes.ScalarsRead | browser-extension/src/shared/normalize.ts:36-40 | a surrogate pair is one value above U+FFFF, a surrogate on its own U+FFFD, any other unit itself |
| CapBytes.SizeGrows | browser-extension/src/shared/normalize.ts:42-48 | one more code unit takes one to three more bytes, completing a surrogate pair one |
| CapBytes.CapBytes | browser-extension/src/shared/normalize.ts:39-50 | the binary search returns the longest prefix that fits the budget, and the flag says exactly whether something was cut |
| CapBytes.CutUsesTheBudget | browser-extension/src/shared/normalize.ts:41-49 | a cut leaves at most two bytes unused, and none when it falls inside a surrogate pair |
| Timestamps.FieldsName | pkg/asymptoteobserve/ordering.go:22-24 | every instant of years 0000 to 9999 has valid calendar fields that name it |
| Timestamps.CalendarIs | pkg/asymptoteobserve/ordering.go:22-24 | the Gregorian calendar in closed form: which fields are valid, and which nanosecond they name |
| Timestamps.FormattedText | pkg/asymptoteobserve/ordering.go:17-24 | a formatted instant is thirty characters, `yyyy-mm-ddThh:mm:ss.nnnnnnnnnZ`, each number in its place |
| Timestamps.ByteOrderIsTimeOrder | pkg/asymptoteobserve/ordering.go:17-24 | byte-wise order of formatted instants is time order, in both directions, and equal texts are equal instants |
| Timestamps.BeforeIs | pkg/asymptoteobserve/ordering.go:11-16 | byte-wise order: at the first difference the earlier text ends or has the smaller character |
| Timestamps.ParseInvertsFormat | pkg/asymptoteobserve/ordering.go:22-31 | parsing gives back every formatted instant to the nanosecond |
| Timestamps.ParseInvertsTo | pkg/asymptoteobserve/ordering.go:26-31 | it reads any width of fraction, whole seconds included, to the last digit written |
| Timestamps.ParsesExactly | pkg/asymptoteobserve/ordering.go:26-31 | exactly the texts of valid fields in UTC parse, to those fields, with nine digits of any fraction |
| Timestamps.TrimmedDoesNotSort | pkg/asymptoteobserve/ordering.go:11-16 | with trailing zeros trimmed byte order is not time order |
| Invariants.CheckTimestamps | beacon-sandbox/check/invariants.go:141-171 | lists exactly the lines whose timestamp does not parse, and exactly the events more than 5 s below an earlier one of their session |
| Invariants.CheckOrdering | beacon-sandbox/check/invariants.go:201-240 | lists exactly the unsequenced events an earlier unsequenced one of their session ties with in 64-bit nanoseconds, and counts the parseable and the sub-second ones |
| Invariants.ListedExactly | beacon-sandbox/check/invariants.go:141-240 | what the three lists hold in what the lines say, with 5 000 000 000 ns and 2^64 ns written out |
| Invariants.CountsAre | beacon-sandbox/check/invariants.go:212-225 | the counts are the numbers of lines with a timestamp that parses, and of those with a fraction |
| Invariants.TiesExactly | beacon-sandbox/check/invariants.go:234 | instants tie exactly when a multiple of 2^64 ns lies between them, and between 1678 and 2262 exactly when they are equal |
| Invariants.ReportsTies | beacon-sandbox/check/invariants.go:231-240 | a shared instant is always listed, and within those years nothing else is |
| Invariants.FarApartReported | beacon-sandbox/check/invariants.go:234 | events 2^64 ns apart are listed although they share nothing |
| PathElement.ContainsPathElement | beacon-sandbox/scenario/scenario.go:430-449 | the search ends, stays in bounds, and is true exactly when some occurrence, overlapping ones included, has no filename byte on either side |
| PathElement.StandsAloneMeans | beacon-sandbox/scenario/scenario.go:430-459 | standing alone in ASCII codes: no letter, digit, hyphen, point or underscore on either side |
| PathElement.StandsAloneIsElement | beacon-sandbox/scenario/scenario.go:428-459 | for a name of filename bytes that is being a whole element |

## Left out

- JSON decoding, fetch, browser storage and alarm calls, files, docker and Modal: their results are parameters or nondeterministic steps.
- Request bodies: prompt and model extraction in `onRequest` is the `request` parameter of `Capture.Site`.
- Clock values: only whether a completion time is set is kept.
- Claude.ClaudeParser.GetTurn: the hash that makes a turn identifier of session and turn key, and the conversion of tool identifiers to strings, are left out.
- ChatGptParsing.ChatGptParser.GetTurn: the same hash, the output message list and the wrapping of search groups as a tool call are left out.
- ChatGptParsing.ChatGptParser.ApplyOp: array segments that are not digits and properties inherited from prototypes are taken to name nothing.
- ChatGptDoc.Locate: an array segment that is not made of digits names nothing, where the code uses the number it converts to, or NaN.
- ChatGptDoc.MergeObjects: an object merged into an array keeps the array's index keys, which JavaScript turns into the names "0", "1" and so on.
- Background.Background.Handle: the parsers' request fields are set when the parser is made, not by a later `onRequest`.
- DeliveryLedger.EveryItemAccountedFor: runs with crashes or storage rejections, where an item may be posted twice, are covered by the safety theorems of `DeliveryTasks`, `DeliveryLedger.InternalRunsEnd` and `DeliveryLedger.OneFlushDrains`.
- Dedupe.WriterKeepsTheSame: a log longer than the tail, which may start in the middle of a line, is not covered.
- Dedupe.Reader: text is a sequence of characters, one for each byte or rune; case mapping maps character to character.
- Identity.OneCallOneId: a decoder for which white space around a line makes it decode to another event, as no JSON decoder does, is left out.
- Shell.SessionLexesTwice: what the shell does with the words, the text behind the first redirection, and PowerShell are not modelled.
- Paths.RecordedPathIsRooted: the normalisation before the join is not part of this model.
- CapBytes.CapBytes: string lengths are unbounded, so the 32-bit shift never overflows.
- Timestamps.ParsesExactly: reads only forms ending in `Z`; offsets, a comma before the fraction and single-digit hours, which Go also accepts, are left out.
- Timestamps.FormatTimestamp: years outside 0000 to 9999 are left out.
- Invariants.CheckOrdering: the wording and severity of findings are left out; positions stand for the evidence.
- PathElement.ContainsPathElement: an empty name, which its callers rule out, is left out.
- Regular-expression redaction, hook taxonomies, uninstall and lifecycle checks and the user interface are easy case analysis or I/O.
