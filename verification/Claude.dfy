// browser-extension/src/adapters/claude.ts: the streamed payloads of one response folded
// into a turn.
module Claude {
  import opened Text
  import opened Json

  datatype Tool = Tool(id: Json, name: Json)
  datatype Block = Block(kind: Json, tool: Option<Tool>, args: string)

  /** A JavaScript Map: entries in insertion order. */
  datatype Blocks = Blocks(order: seq<Json>, entries: map<Json, Block>)

  datatype Usage = Usage(input: Option<real>, output: Option<real>, cacheWrites: Option<real>, cacheReads: Option<real>)

  datatype Parsed = Parsed(
    model: Option<string>, messageId: string, text: string,
    usage: Usage, blocks: Blocks, completed: bool)

  const NOTHING := Parsed(None, "", "", Usage(None, None, None, None), Blocks([], map[]), false)

  /** What the request said: its number on the page, the conversation and the prompt. */
  datatype Request = Request(id: int, sessionId: string, prompt: string)

  datatype ToolUse = ToolUse(tool: Tool, args: Json)
  datatype Turn = Turn(
    sessionId: string, turnKey: string, model: Option<string>, prompt: string, text: string,
    tools: seq<ToolUse>, usage: Usage, completed: bool)

  // ------------------------------------------- what one payload says

  function Kind(obj: Json): Json { Get(obj, "type") }

  predicate Legacy(obj: Json) {
    Get(obj, "completion").Str? && Nullish(Kind(obj))
  }

  predicate Is(obj: Json, kind: string) {
    !Legacy(obj) && Kind(obj) == Str(kind)
  }

  function Delta(obj: Json): Json { Get(obj, "delta") }

  function TextOf(obj: Json): string {
    if Legacy(obj) then Get(obj, "completion").s
    else if Is(obj, "content_block_delta") && Get(Delta(obj), "type") == Str("text_delta") &&
        Get(Delta(obj), "text").Str?
    then Get(Delta(obj), "text").s
    else ""
  }

  /** The usage object of a payload that carries input-side counts. */
  function UsageOf(obj: Json): Json {
    if Is(obj, "message_start") then Get(Get(obj, "message"), "usage")
    else if Is(obj, "message_delta") then Get(obj, "usage")
    else Undefined
  }

  function InputOf(obj: Json): Option<real> { AsNumber(Get(UsageOf(obj), "input_tokens")) }
  function CacheWritesOf(obj: Json): Option<real> { AsNumber(Get(UsageOf(obj), "cache_creation_input_tokens")) }
  function CacheReadsOf(obj: Json): Option<real> { AsNumber(Get(UsageOf(obj), "cache_read_input_tokens")) }

  /** Output tokens count only from a message_delta; a message_start carries a placeholder. */
  function OutputOf(obj: Json): Option<real> {
    if Is(obj, "message_delta") then AsNumber(Get(Get(obj, "usage"), "output_tokens")) else None
  }

  predicate Completes(obj: Json) {
    Is(obj, "message_stop") || (Legacy(obj) && Truthy(Get(obj, "stop_reason")))
  }

  /** The argument text a payload adds to the block at `index`. */
  function ArgsOf(obj: Json, index: Json): string {
    if Is(obj, "content_block_delta") && Get(obj, "index") == index
       && Get(Delta(obj), "type") == Str("input_json_delta") && Get(Delta(obj), "partial_json").Str?
    then Get(Delta(obj), "partial_json").s
    else ""
  }

  // -------------------------------------------------- one step, as a value

  function Newer<T>(now: Option<T>, before: Option<T>): Option<T> {
    if now.Some? then now else before
  }

  function StartedBlock(obj: Json): Block {
    var cb := Get(obj, "content_block");
    Block(OrElse(Get(cb, "type"), Str("text")),
          if Get(cb, "type") == Str("tool_use")
          then Some(Tool(OrElse(Get(cb, "id"), Str("")), OrElse(Get(cb, "name"), Str(""))))
          else None,
          "")
  }

  function StartIndex(obj: Json, blocks: Blocks): Json {
    OrElse(Get(obj, "index"), Num(|blocks.order| as real))
  }

  function Put(blocks: Blocks, index: Json, block: Block): Blocks {
    Blocks(if index in blocks.entries then blocks.order else blocks.order + [index], blocks.entries[index := block])
  }

  function NextBlocks(blocks: Blocks, obj: Json): Blocks {
    if Is(obj, "content_block_start") then Put(blocks, StartIndex(obj, blocks), StartedBlock(obj))
    else if Is(obj, "content_block_delta") && Get(obj, "index") in blocks.entries then
      var index := Get(obj, "index");
      var block := blocks.entries[index];
      blocks.(entries := blocks.entries[index := block.(args := block.args + ArgsOf(obj, index))])
    else blocks
  }

  function MessageIdOf(obj: Json): Option<string> {
    if !Is(obj, "message_start") then None
    else
      var m := Get(obj, "message");
      Newer(AsString(Get(m, "uuid")), AsString(Get(m, "id")))
  }

  function ModelOf(obj: Json): Option<string> {
    if Is(obj, "message_start") then AsString(Get(Get(obj, "message"), "model")) else None
  }

  function Step(p: Parsed, obj: Json): Parsed {
    Parsed(
      Newer(ModelOf(obj), p.model),
      (match MessageIdOf(obj) case Some(id) => id case None => p.messageId),
      p.text + TextOf(obj),
      Usage(Newer(InputOf(obj), p.usage.input), Newer(OutputOf(obj), p.usage.output),
            Newer(CacheWritesOf(obj), p.usage.cacheWrites), Newer(CacheReadsOf(obj), p.usage.cacheReads)),
      NextBlocks(p.blocks, obj),
      p.completed || Completes(obj))
  }

  function Fold(p: Parsed, objs: seq<Json>): Parsed {
    if objs == [] then p else Step(Fold(p, objs[..|objs| - 1]), objs[|objs| - 1])
  }

  /** Data that is no payload: the sentinel, an empty event, text that does not decode. */
  predicate NoPayload(decode: string -> Option<Json>, data: string) {
    data == "" || data == "[DONE]" || decode(data).None?
  }

  /** A payload of `null` has no properties to read: the code throws. */
  predicate Throws(decode: string -> Option<Json>, data: string) {
    !NoPayload(decode, data) && Nullish(decode(data).value)
  }

  function Receive(p: Parsed, decode: string -> Option<Json>, data: string): Parsed {
    if NoPayload(decode, data) || Throws(decode, data) then p else Step(p, decode(data).value)
  }

  // -------------------------------------------------------- the parser

  class ClaudeParser {
    const request: Request
    var model: Option<string>
    var responseText: string
    var inputTokens: Option<real>
    var outputTokens: Option<real>
    var cacheCreationInputTokens: Option<real>
    var cacheReadInputTokens: Option<real>
    var completedAt: bool  // whether a completion time has been set
    var messageId: string
    var blocks: Blocks

    ghost function View(): Parsed
      reads this
    {
      Parsed(model, messageId, responseText,
             Usage(inputTokens, outputTokens, cacheCreationInputTokens, cacheReadInputTokens), blocks, completedAt)
    }

    constructor (model: Option<string>, request: Request)
      ensures View() == NOTHING.(model := model) && this.request == request
    {
      this.model, this.request := model, request;
      responseText, messageId, completedAt := "", "", false;
      inputTokens, outputTokens := None, None;
      cacheCreationInputTokens, cacheReadInputTokens := None, None;
      blocks := Blocks([], map[]);
    }

    /** The data of one event. */
    method HandleData(decode: string -> Option<Json>, data: string) returns (threw: bool)
      modifies this
      ensures View() == Receive(old(View()), decode, data)
      ensures threw == Throws(decode, data)
    {
      if data == "" || data == "[DONE]" {
        return false;
      }
      var obj := decode(data);
      if obj.None? {
        return false;
      }
      if Nullish(obj.value) {
        return true;
      }
      Handle(obj.value);
      return false;
    }

    /** One decoded payload, in the order of the code's own branches. */
    method Handle(obj: Json)
      modifies this
      ensures View() == Step(old(View()), obj)
    {
      if Get(obj, "completion").Str? && Nullish(Get(obj, "type")) {
        responseText := responseText + Get(obj, "completion").s;
        if Truthy(Get(obj, "stop_reason")) {
          completedAt := true;
        }
        return;
      }
      var kind := Get(obj, "type");
      if kind == Str("message_start") {
        HandleStart(obj);
      } else if kind == Str("content_block_start") {
        hide Put, StartedBlock, StartIndex;
        blocks := Put(blocks, StartIndex(obj, blocks), StartedBlock(obj));
        assert responseText + "" == responseText;
      } else if kind == Str("content_block_delta") {
        HandleDelta(obj);
      } else if kind == Str("message_delta") {
        HandleUsage(obj);
      } else {
        if kind == Str("message_stop") {
          completedAt := true;
        }
        assert responseText + "" == responseText;
      }
    }

    method HandleStart(obj: Json)
      requires Is(obj, "message_start")
      modifies this
      ensures View() == Step(old(View()), obj)
    {
      var m := Get(obj, "message");
      if Get(m, "model").Str? {
        model := Some(Get(m, "model").s);
      }
      if Get(m, "uuid").Str? {
        messageId := Get(m, "uuid").s;
      } else if Get(m, "id").Str? {
        messageId := Get(m, "id").s;
      }
      ReadUsage(Get(m, "usage"));
      assert responseText + "" == responseText;
    }

    method HandleDelta(obj: Json)
      requires Is(obj, "content_block_delta")
      modifies this
      ensures View() == Step(old(View()), obj)
    {
      var d := Get(obj, "delta");
      assert responseText + "" == responseText;
      if Get(d, "type") == Str("text_delta") && Get(d, "text").Str? {
        responseText := responseText + Get(d, "text").s;
        NoArgs(blocks, obj);
      } else if Get(d, "type") == Str("input_json_delta") && Get(d, "partial_json").Str? {
        var index := Get(obj, "index");
        if index in blocks.entries {
          var entry := blocks.entries[index];
          entry := entry.(args := entry.args + Get(d, "partial_json").s);
          blocks := blocks.(entries := blocks.entries[index := entry]);
        }
      } else {
        NoArgs(blocks, obj);
      }
    }

    method HandleUsage(obj: Json)
      requires Is(obj, "message_delta")
      modifies this
      ensures View() == Step(old(View()), obj)
    {
      var usage := Get(obj, "usage");
      if Get(usage, "output_tokens").Num? {
        outputTokens := Some(Get(usage, "output_tokens").n);
      }
      ReadUsage(usage);
      assert responseText + "" == responseText;
    }

    /** Each count is taken on its own and only when it is a number. */
    method ReadUsage(u: Json)
      modifies `inputTokens, `cacheCreationInputTokens, `cacheReadInputTokens
      ensures inputTokens == Newer(AsNumber(Get(u, "input_tokens")), old(inputTokens))
      ensures cacheCreationInputTokens
           == Newer(AsNumber(Get(u, "cache_creation_input_tokens")), old(cacheCreationInputTokens))
      ensures cacheReadInputTokens
           == Newer(AsNumber(Get(u, "cache_read_input_tokens")), old(cacheReadInputTokens))
    {
      if !Truthy(u) {
        return;
      }
      if Get(u, "input_tokens").Num? {
        inputTokens := Some(Get(u, "input_tokens").n);
      }
      if Get(u, "cache_creation_input_tokens").Num? {
        cacheCreationInputTokens := Some(Get(u, "cache_creation_input_tokens").n);
      }
      if Get(u, "cache_read_input_tokens").Num? {
        cacheReadInputTokens := Some(Get(u, "cache_read_input_tokens").n);
      }
    }

    method GetTurn(decode: string -> Option<Json>) returns (turn: Option<Turn>)
      requires forall i | i in blocks.order :: i in blocks.entries
      ensures turn == TurnOf(View(), request, decode)
      ensures turn.None? <==> responseText == "" && blocks.order == [] && request.prompt == ""
      ensures turn.Some? ==> turn.value.text == responseText && turn.value.prompt == request.prompt
    {
      if responseText == "" && blocks.order == [] && request.prompt == "" {
        return None;
      }
      var toolCalls: seq<ToolUse> := [];
      for n := 0 to |blocks.order|
        invariant toolCalls == Tools(blocks, decode, n)
      {
        var entry := blocks.entries[blocks.order[n]];
        if entry.tool.Some? {
          var args := Str(entry.args);
          if entry.args == "" {
            args := Undefined;
          } else if decode(entry.args).Some? {
            args := decode(entry.args).value;
          }
          toolCalls := toolCalls + [ToolUse(entry.tool.value, args)];
        }
      }
      return Some(Turn(
        if request.sessionId != "" then request.sessionId else "claude-unknown-" + Show(request.id),
        if messageId != "" then messageId else "r" + Show(request.id),
        model, request.prompt, responseText, toolCalls,
        Usage(inputTokens, outputTokens, cacheCreationInputTokens, cacheReadInputTokens), completedAt));
    }
  }

  /** A delta that carries no argument text leaves the blocks as they are. */
  lemma NoArgs(blocks: Blocks, obj: Json)
    requires Is(obj, "content_block_delta")
    requires !(Get(Delta(obj), "type") == Str("input_json_delta") && Get(Delta(obj), "partial_json").Str?)
    ensures NextBlocks(blocks, obj) == blocks
  {
    var index := Get(obj, "index");
    if index in blocks.entries {
      var block := blocks.entries[index];
      assert block.args + "" == block.args;
      assert blocks.entries[index := block] == blocks.entries;
    }
  }

  /** Streamed arguments as a value: nothing if none came, the text itself if it does not decode. */
  function ArgsValue(decode: string -> Option<Json>, args: string): Json {
    if args == "" then Undefined else match decode(args) case Some(v) => v case None => Str(args)
  }

  function Tools(blocks: Blocks, decode: string -> Option<Json>, n: nat): seq<ToolUse>
    requires n <= |blocks.order| && forall i | i in blocks.order :: i in blocks.entries
  {
    if n == 0 then []
    else
      var entry := blocks.entries[blocks.order[n - 1]];
      Tools(blocks, decode, n - 1)
      + if entry.tool.Some? then [ToolUse(entry.tool.value, ArgsValue(decode, entry.args))] else []
  }

  function TurnOf(p: Parsed, r: Request, decode: string -> Option<Json>): Option<Turn> {
    if (p.text == "" && p.blocks.order == [] && r.prompt == "")
       || !forall i | i in p.blocks.order :: i in p.blocks.entries then None
    else Some(Turn(if r.sessionId != "" then r.sessionId else "claude-unknown-" + Show(r.id),
                   if p.messageId != "" then p.messageId else "r" + Show(r.id),
                   p.model, r.prompt, p.text, Tools(p.blocks, decode, |p.blocks.order|), p.usage, p.completed))
  }

  // ------------------------------------------ what a whole stream says

  function Texts(objs: seq<Json>): string {
    if objs == [] then "" else TextOf(objs[0]) + Texts(objs[1..])
  }

  /** The value the last payload that has one gives. */
  ghost predicate IsLast<T>(objs: seq<Json>, read: Json -> Option<T>, value: Option<T>) {
    if value.None? then forall i | 0 <= i < |objs| :: read(objs[i]).None?
    else exists i :: 0 <= i < |objs| && read(objs[i]) == value
                     && forall j | i < j < |objs| :: read(objs[j]).None?
  }

  lemma LastGrows<T>(objs: seq<Json>, obj: Json, read: Json -> Option<T>, value: Option<T>)
    requires IsLast(objs, read, value)
    ensures IsLast(objs + [obj], read, Newer(read(obj), value))
  {
    var all := objs + [obj];
    if read(obj).Some? {
      assert all[|objs|] == obj;
    } else if value.Some? {
      var i :| 0 <= i < |objs| && read(objs[i]) == value && forall j | i < j < |objs| :: read(objs[j]).None?;
      assert all[i] == objs[i];
    }
  }

  lemma TextsStep(obj: Json, more: seq<Json>)
    ensures Texts([obj] + more) == TextOf(obj) + Texts(more) && Texts([]) == ""
  {
    hide TextOf;
    assert ([obj] + more)[1..] == more;
  }

  lemma {:induction false} TextsSnoc(objs: seq<Json>, obj: Json)
    ensures Texts(objs + [obj]) == Texts(objs) + TextOf(obj)
  {
    hide Texts, TextOf;
    TextsStep(obj, []);
    if objs == [] {
      assert objs + [obj] == [obj] + [];
    } else {
      var first, more := objs[0], objs[1..];
      assert objs == [first] + more && objs + [obj] == [first] + (more + [obj]);
      TextsSnoc(more, obj);
      TextsStep(first, more);
      TextsStep(first, more + [obj]);
    }
  }

  /** Every Map entry is listed once, in the order the blocks first appeared. */
  ghost predicate WellOrdered(blocks: Blocks) {
    && (forall i | 0 <= i < |blocks.order| :: blocks.order[i] in blocks.entries)
    && (forall k | k in blocks.entries :: k in blocks.order)
    && (forall i, j | 0 <= i < j < |blocks.order| :: blocks.order[i] != blocks.order[j])
  }

  lemma NextStaysOrdered(blocks: Blocks, obj: Json)
    requires WellOrdered(blocks)
    ensures WellOrdered(NextBlocks(blocks, obj))
  {
    var after := NextBlocks(blocks, obj);
    assert after.order == blocks.order || |after.order| == |blocks.order| + 1;
    forall k | k in after.entries ensures k in after.order {
      if k in blocks.entries {
        var i :| 0 <= i < |blocks.order| && blocks.order[i] == k;
        assert after.order[i] == k;
      } else {
        assert after.order[|blocks.order|] == k;
      }
    }
  }

  lemma {:induction false} BlocksStayOrdered(objs: seq<Json>)
    ensures WellOrdered(Fold(NOTHING, objs).blocks)
  {
    if objs != [] {
      BlocksStayOrdered(objs[..|objs| - 1]);
      hide NextBlocks;
      NextStaysOrdered(Fold(NOTHING, objs[..|objs| - 1]).blocks, objs[|objs| - 1]);
    }
  }

  /** The turn's text is all text deltas in order, each count is the last one reported (output
      tokens by message_delta alone), and it is complete once some payload says so. */
  lemma {:induction false} StreamSays(objs: seq<Json>)
    ensures var p := Fold(NOTHING, objs);
            && p.text == Texts(objs)
            && IsLast(objs, InputOf, p.usage.input)
            && IsLast(objs, OutputOf, p.usage.output)
            && IsLast(objs, CacheWritesOf, p.usage.cacheWrites)
            && IsLast(objs, CacheReadsOf, p.usage.cacheReads)
            && IsLast(objs, ModelOf, p.model)
            && (p.completed <==> exists i :: 0 <= i < |objs| && Completes(objs[i]))
  {
    if objs != [] {
      var front, obj := objs[..|objs| - 1], objs[|objs| - 1];
      assert objs == front + [obj];
      var p := Fold(NOTHING, front);
      StreamSays(front);
      TextsSnoc(front, obj);
      hide TextOf, InputOf, OutputOf, CacheWritesOf, CacheReadsOf, ModelOf, Completes, Texts, NextBlocks, MessageIdOf;
      LastGrows(front, obj, InputOf, p.usage.input);
      LastGrows(front, obj, OutputOf, p.usage.output);
      LastGrows(front, obj, CacheWritesOf, p.usage.cacheWrites);
      LastGrows(front, obj, CacheReadsOf, p.usage.cacheReads);
      LastGrows(front, obj, ModelOf, p.model);
      CompletesGrows(front, obj);
    }
  }

  lemma CompletesGrows(objs: seq<Json>, obj: Json)
    ensures (exists i :: 0 <= i < |objs| + 1 && Completes((objs + [obj])[i]))
       <==> Completes(obj) || exists i :: 0 <= i < |objs| && Completes(objs[i])
  {
    hide Completes;
    var all := objs + [obj];
    if Completes(obj) { assert Completes(all[|objs|]); }
    if i :| 0 <= i < |objs| && Completes(objs[i]) { assert Completes(all[i]); }
  }

  // ------------------------------------------------ tools, block by block

  predicate Starts(obj: Json) {
    !(Get(obj, "completion").Str? && Nullish(Get(obj, "type"))) && Get(obj, "type") == Str("content_block_start")
  }

  /** The indices blocks were started under, in order of first start. */
  function Started(objs: seq<Json>): seq<Json> {
    if objs == [] then []
    else
      var front, obj := Started(objs[..|objs| - 1]), objs[|objs| - 1];
      if Starts(obj) && StartedAs(front, obj) !in front then front + [StartedAs(front, obj)] else front
  }

  /** The index a start names, or the number of blocks there are. */
  function StartedAs(started: seq<Json>, obj: Json): Json {
    if Nullish(Get(obj, "index")) then Num(|started| as real) else Get(obj, "index")
  }

  /** The content block the last start under `index` gave. */
  function LastStart(objs: seq<Json>, index: Json): Json {
    if objs == [] then Undefined
    else
      var front, obj := objs[..|objs| - 1], objs[|objs| - 1];
      if Starts(obj) && StartedAs(Started(front), obj) == index then Get(obj, "content_block")
      else LastStart(front, index)
  }

  /** The argument text streamed to `index` since a block last started under it. */
  function ArgsSince(objs: seq<Json>, index: Json): string {
    if objs == [] then ""
    else
      var front, obj := objs[..|objs| - 1], objs[|objs| - 1];
      if Starts(obj) && StartedAs(Started(front), obj) == index then ""
      else ArgsSince(front, index) + ArgsOf(obj, index)
  }

  /** The tools used: the started blocks of that type, with the ID and the name their last start gave
      and the arguments streamed since, decoded where they decode. */
  function ToolsUsed(objs: seq<Json>, decode: string -> Option<Json>, n: nat): seq<ToolUse>
    requires n <= |Started(objs)|
  {
    if n == 0 then []
    else
      var index := Started(objs)[n - 1];
      var cb, args := LastStart(objs, index), ArgsSince(objs, index);
      ToolsUsed(objs, decode, n - 1)
      + if Get(cb, "type") != Str("tool_use") then []
        else [ToolUse(Tool(OrElse(Get(cb, "id"), Str("")), OrElse(Get(cb, "name"), Str(""))),
                      if args == "" then Undefined
                      else match decode(args) case Some(v) => v case None => Str(args))]
  }

  /** The entry of a block that has been started, from the payloads. */
  function Streamed(objs: seq<Json>, index: Json): Block {
    var cb := LastStart(objs, index);
    Block(OrElse(Get(cb, "type"), Str("text")),
          if Get(cb, "type") == Str("tool_use")
          then Some(Tool(OrElse(Get(cb, "id"), Str("")), OrElse(Get(cb, "name"), Str(""))))
          else None,
          ArgsSince(objs, index))
  }

  /** The map lists the started indices in order, and holds for each what its last start and the
      deltas since say. */
  lemma {:induction false} BlocksAreStreamed(objs: seq<Json>)
    ensures var blocks := Fold(NOTHING, objs).blocks;
            && blocks.order == Started(objs) && blocks.entries.Keys == (set k | k in Started(objs))
            && forall k | k in blocks.entries :: blocks.entries[k] == Streamed(objs, k)
  {
    if objs != [] {
      var front, obj := objs[..|objs| - 1], objs[|objs| - 1];
      BlocksAreStreamed(front);
      assert objs == front + [obj];
      BlockStep(front, obj, Fold(NOTHING, front).blocks);
    }
  }

  lemma BlockStep(front: seq<Json>, obj: Json, blocks: Blocks)
    requires blocks.order == Started(front) && blocks.entries.Keys == (set k | k in Started(front))
    requires forall k | k in blocks.entries :: blocks.entries[k] == Streamed(front, k)
    ensures var after, objs := NextBlocks(blocks, obj), front + [obj];
            && after.order == Started(objs) && after.entries.Keys == (set k | k in Started(objs))
            && forall k | k in after.entries :: after.entries[k] == Streamed(objs, k)
  {
    var after, objs := NextBlocks(blocks, obj), front + [obj];
    StartedSnoc(front, obj);
    assert Starts(obj) <==> Is(obj, "content_block_start");
    assert Starts(obj) ==> StartedAs(Started(front), obj) == StartIndex(obj, blocks);
    forall k | k in after.entries ensures after.entries[k] == Streamed(objs, k) {
      StreamedSnoc(front, obj, k);
      NoArgsElsewhere(obj, k);
      hide Starts, Is, ArgsOf, Streamed, Started, StartedAs, StartIndex, StartedBlock;
      var args := Streamed(front, k).args;
      assert args + "" == args;
    }
    hide Streamed, Started, StartedAs, StartIndex, StartedBlock, ArgsOf, Is;
  }

  lemma NoArgsElsewhere(obj: Json, k: Json)
    ensures ArgsOf(obj, k) != "" ==> Is(obj, "content_block_delta") && Get(obj, "index") == k
    ensures Is(obj, "content_block_delta") ==> !Is(obj, "content_block_start")
  {
  }

  lemma StartedSnoc(front: seq<Json>, obj: Json)
    ensures var started, objs := Started(front), front + [obj];
            Started(objs)
            == started + if Starts(obj) && StartedAs(started, obj) !in started then [StartedAs(started, obj)] else []
  {
    hide Starts, StartedAs;
    assert (front + [obj])[..|front|] == front;
  }

  lemma StreamedSnoc(front: seq<Json>, obj: Json, k: Json)
    ensures Streamed(front + [obj], k)
         == if Starts(obj) && StartedAs(Started(front), obj) == k then StartedBlock(obj)
            else Streamed(front, k).(args := Streamed(front, k).args + ArgsOf(obj, k))
  {
    hide Starts, StartedAs, Started, ArgsOf;
    assert (front + [obj])[..|front|] == front;
  }

  lemma {:induction false} ToolsAreUsed(objs: seq<Json>, decode: string -> Option<Json>, n: nat)
    requires n <= |Started(objs)|
    ensures var blocks := Fold(NOTHING, objs).blocks;
            && blocks.order == Started(objs) && (forall i | i in blocks.order :: i in blocks.entries)
            && Tools(blocks, decode, n) == ToolsUsed(objs, decode, n)
  {
    BlocksAreStreamed(objs);
    if n > 0 {
      hide Fold, Started, Streamed, Tools, ToolsUsed;
      ToolsAreUsed(objs, decode, n - 1);
      OneTool(objs, decode, n, Fold(NOTHING, objs).blocks);
    }
  }

  lemma OneTool(objs: seq<Json>, decode: string -> Option<Json>, n: nat, blocks: Blocks)
    requires 0 < n <= |Started(objs)| && blocks.order == Started(objs)
    requires forall i | i in blocks.order :: i in blocks.entries && blocks.entries[i] == Streamed(objs, i)
    requires Tools(blocks, decode, n - 1) == ToolsUsed(objs, decode, n - 1)
    ensures Tools(blocks, decode, n) == ToolsUsed(objs, decode, n)
  {
    hide Started, LastStart, ArgsSince;
    var index := blocks.order[n - 1];
    assert blocks.entries[index] == Streamed(objs, index);
  }

  /** The turn of a run of payloads, field by field: the prompt and the session are the request's, or
      the session the fallback for its number; the text is all text deltas; the key is the last message
      identifier, or the fallback; model, counts and completion are the last ones reported; the tools
      are those used. There is none without prompt, text and blocks. */
  lemma TurnSays(objs: seq<Json>, model: Option<string>, r: Request, decode: string -> Option<Json>)
    ensures var turn := TurnOf(Fold(NOTHING, objs).(model := Newer(Fold(NOTHING, objs).model, model)), r, decode);
            if Texts(objs) == "" && Started(objs) == [] && r.prompt == "" then turn == None
            else
              turn.Some? && var t := turn.value;
              && t.prompt == r.prompt && t.text == Texts(objs)
              && t.sessionId == (if r.sessionId != "" then r.sessionId else "claude-unknown-" + Show(r.id))
              && (exists id :: IsLast(objs, MessageIdOf, id)
                               && t.turnKey == if id.Some? && id.value != "" then id.value else "r" + Show(r.id))
              && (exists m :: IsLast(objs, ModelOf, m) && t.model == if m.Some? then m else model)
              && IsLast(objs, InputOf, t.usage.input) && IsLast(objs, OutputOf, t.usage.output)
              && IsLast(objs, CacheWritesOf, t.usage.cacheWrites) && IsLast(objs, CacheReadsOf, t.usage.cacheReads)
              && (t.completed <==> exists i :: 0 <= i < |objs| && Completes(objs[i]))
              && t.tools == ToolsUsed(objs, decode, |Started(objs)|)
  {
    StreamSays(objs);
    ToolsAreUsed(objs, decode, |Started(objs)|);
    MessageIdIsLast(objs);
    hide Fold, Texts, Started, ToolsUsed, Tools, IsLast, Completes, InputOf, OutputOf, CacheWritesOf, CacheReadsOf,
         ModelOf, MessageIdOf, Show;
    var p := Fold(NOTHING, objs);
    assert IsLast(objs, ModelOf, p.model);
    var id: Option<string> :| IsLast(objs, MessageIdOf, id) && p.messageId == if id.Some? then id.value else "";
  }

  lemma {:induction false} MessageIdIsLast(objs: seq<Json>)
    ensures exists id: Option<string> :: IsLast(objs, MessageIdOf, id)
              && Fold(NOTHING, objs).messageId == if id.Some? then id.value else ""
  {
    if objs == [] {
      assert IsLast(objs, MessageIdOf, None);
    } else {
      var front, obj := objs[..|objs| - 1], objs[|objs| - 1];
      assert objs == front + [obj];
      MessageIdIsLast(front);
      hide MessageIdOf, TextOf, InputOf, OutputOf, CacheWritesOf, CacheReadsOf, ModelOf, Completes, NextBlocks;
      var id: Option<string> :| IsLast(front, MessageIdOf, id)
                                && Fold(NOTHING, front).messageId == if id.Some? then id.value else "";
      LastGrows(front, obj, MessageIdOf, id);
      assert IsLast(objs, MessageIdOf, Newer(MessageIdOf(obj), id));
    }
  }

  // ------------------------------------------- one payload, kind by kind

  /** The counts a usage object gives, each on its own and only when it is a number. */
  function Counted(u: Usage, usage: Json): Usage {
    Usage(if Get(usage, "input_tokens").Num? then Some(Get(usage, "input_tokens").n) else u.input,
          u.output,
          if Get(usage, "cache_creation_input_tokens").Num?
          then Some(Get(usage, "cache_creation_input_tokens").n) else u.cacheWrites,
          if Get(usage, "cache_read_input_tokens").Num?
          then Some(Get(usage, "cache_read_input_tokens").n) else u.cacheReads)
  }

  /** What a payload of each kind changes, and that it changes nothing else. */
  lemma PayloadSteps(p: Parsed, obj: Json)
    ensures var kind, after := Get(obj, "type"), Step(p, obj);
            if Get(obj, "completion").Str? && Nullish(kind) then
              after == p.(text := p.text + Get(obj, "completion").s,
                          completed := p.completed || Truthy(Get(obj, "stop_reason")))
            else if kind == Str("message_start") then
              var m := Get(obj, "message");
              after == p.(model := if Get(m, "model").Str? then Some(Get(m, "model").s) else p.model,
                          messageId := if Get(m, "uuid").Str? then Get(m, "uuid").s
                                       else if Get(m, "id").Str? then Get(m, "id").s else p.messageId,
                          usage := Counted(p.usage, Get(m, "usage")))
            else if kind == Str("content_block_start") then
              var cb, index := Get(obj, "content_block"), StartedAs(p.blocks.order, obj);
              after == p.(blocks := Blocks(
                            if index in p.blocks.entries then p.blocks.order else p.blocks.order + [index],
                            p.blocks.entries[index := Block(
                              if Nullish(Get(cb, "type")) then Str("text") else Get(cb, "type"),
                              if Get(cb, "type") == Str("tool_use")
                              then Some(Tool(OrElse(Get(cb, "id"), Str("")), OrElse(Get(cb, "name"), Str(""))))
                              else None, "")]))
            else if kind == Str("content_block_delta") then
              var d, index := Get(obj, "delta"), Get(obj, "index");
              if Get(d, "type") == Str("text_delta") && Get(d, "text").Str? then
                after == p.(text := p.text + Get(d, "text").s)
              else if Get(d, "type") == Str("input_json_delta") && Get(d, "partial_json").Str?
                      && index in p.blocks.entries then
                var block := p.blocks.entries[index];
                after == p.(blocks := p.blocks.(entries := p.blocks.entries[index :=
                              block.(args := block.args + Get(d, "partial_json").s)]))
              else after == p
            else if kind == Str("message_delta") then
              var usage := Get(obj, "usage");
              after == p.(usage := Counted(p.usage, usage).(output :=
                            if Get(usage, "output_tokens").Num? then Some(Get(usage, "output_tokens").n)
                            else p.usage.output))
            else if kind == Str("message_stop") then after == p.(completed := true)
            else after == p
  {
    hide Truthy;
    assert p.text + "" == p.text;
    if Is(obj, "content_block_delta") {
      hide Step;
      DeltaSteps(p, obj);
    }
  }

  lemma DeltaSteps(p: Parsed, obj: Json)
    requires Is(obj, "content_block_delta")
    ensures var after, d, index := Step(p, obj), Get(obj, "delta"), Get(obj, "index");
            if Get(d, "type") == Str("text_delta") && Get(d, "text").Str? then
              after == p.(text := p.text + Get(d, "text").s)
            else if Get(d, "type") == Str("input_json_delta") && Get(d, "partial_json").Str?
                    && index in p.blocks.entries then
              var block := p.blocks.entries[index];
              after == p.(blocks := p.blocks.(entries := p.blocks.entries[index :=
                            block.(args := block.args + Get(d, "partial_json").s)]))
            else after == p
  {
    assert p.text + "" == p.text;
    var d := Get(obj, "delta");
    if !(Get(d, "type") == Str("input_json_delta") && Get(d, "partial_json").Str?) {
      NoArgs(p.blocks, obj);
      hide NextBlocks;
    }
  }
}
