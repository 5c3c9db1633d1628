// browser-extension/src/background/assembler.ts over the parsers of both sites: one map of event
// parsers and site parsers, all of them objects in one heap, proved against the assembler's steps on
// values.
module Background {
  import opened Text
  import opened Json
  import opened Sse
  import opened SseStream
  import opened Assembler
  import opened ChatGptDoc
  import opened ChatGptParsing
  import opened Capture
  import Claude
  import ChatGpt

  datatype SiteState = OfClaude(claude: ClaudeState) | OfChatGpt(chatGpt: ChatGptState)

  datatype SiteTurn = ClaudeTurned(claude: Claude.Turn) | ChatGptTurned(chatGpt: ChatGpt.Turn)

  /** The two adapters' tests on hosts and requests, what they read out of a request, and JSON
      decoding. */
  datatype World = World(
    claudeHost: string -> bool,
    claudeMatches: (string, string) -> bool,
    claudeRequest: (int, string, string, Option<string>) -> (Option<string>, Claude.Request),
    chatGptHost: string -> bool,
    chatGptMatches: (string, string) -> bool,
    chatGptRequest: (int, string, string, Option<string>) -> (string, ChatGpt.Request),
    decode: string -> Option<Json>)

  const NO_DOCUMENT := ChatGpt.Mirror(Null, ChatGpt.Nothing)

  function ClaudeStart(model: Option<string>, request: Claude.Request): SiteState {
    OfClaude(ClaudeState(Claude.NOTHING.(model := model), request))
  }

  function ChatGptStart(sessionId: string, request: ChatGpt.Request): SiteState {
    OfChatGpt(ChatGptState(ChatGpt.State(NO_DOCUMENT, Str(""), Str(""), sessionId, false), request))
  }

  function Asked(w: World, s: SiteState, url: string, httpMethod: string, body: Option<string>): SiteState {
    match s
    case OfClaude(c) =>
      (var (model, request) := w.claudeRequest(c.request.id, url, httpMethod, body);
       ClaudeStart(model, request))
    case OfChatGpt(g) =>
      (var (sessionId, request) := w.chatGptRequest(g.request.id, url, httpMethod, body);
       ChatGptStart(sessionId, request))
  }

  function HandleEither(w: World): (SiteState, SseEvent) -> Outcome<SiteState> {
    (s: SiteState, e: SseEvent) =>
      match s
      case OfClaude(c) => (var o := ClaudeHandle(w.decode)(c, e); Outcome(OfClaude(o.state), o.threw))
      case OfChatGpt(g) => (var o := ChatGptHandle(w.decode)(g, e); Outcome(OfChatGpt(o.state), o.threw))
  }

  function TurnOfEither(w: World): SiteState -> Made<SiteTurn> {
    (s: SiteState) =>
      match s
      case OfClaude(c) => ClaudeMade(Claude.TurnOf(c.parsed, c.request, w.decode))
      case OfChatGpt(g) => ChatGptMade(ChatGpt.TurnOf(g.parsed, g.request))
  }

  function ClaudeMade(turn: Option<Claude.Turn>): Made<SiteTurn> {
    match turn case None => Made(None) case Some(t) => Made(Some(ClaudeTurned(t)))
  }

  function ChatGptMade(made: Made<ChatGpt.Turn>): Made<SiteTurn> {
    match made
    case Threw => Threw
    case Made(None) => Made(None)
    case Made(Some(t)) => Made(Some(ChatGptTurned(t)))
  }

  function ClaudeSite(w: World): Site<SiteState, SiteTurn> {
    Site(w.claudeHost, w.claudeMatches, reqId => ClaudeStart(None, Claude.Request(reqId, "", "")),
         (s: SiteState, url, httpMethod, body) => Asked(w, s, url, httpMethod, body), HandleEither(w), TurnOfEither(w))
  }

  function ChatGptSite(w: World): Site<SiteState, SiteTurn> {
    Site(w.chatGptHost, w.chatGptMatches, reqId => ChatGptStart("", ChatGpt.Request(reqId, None, "")),
         (s: SiteState, url, httpMethod, body) => Asked(w, s, url, httpMethod, body), HandleEither(w), TurnOfEither(w))
  }

  function ClaudeAdapter(w: World): Adapter<Stream<SiteState>, SiteTurn> {
    AdapterOf(ClaudeSite(w))
  }

  function ChatGptAdapter(w: World): Adapter<Stream<SiteState>, SiteTurn> {
    AdapterOf(ChatGptSite(w))
  }

  /** In the order in which the two adapters register themselves. */
  function Registry(w: World): seq<Adapter<Stream<SiteState>, SiteTurn>> {
    [ClaudeAdapter(w), ChatGptAdapter(w)]
  }

  // --------------------------------------- either site's own functions

  lemma {:induction false} RunClaude(w: World, s: ClaudeState, events: seq<SseEvent>)
    ensures var o := Run(ClaudeHandle(w.decode), s, events);
            Run(HandleEither(w), OfClaude(s), events) == Outcome(OfClaude(o.state), o.threw)
    decreases events
  {
    if events != [] {
      hide Claude.Receive, Claude.Throws;
      RunClaude(w, ClaudeHandle(w.decode)(s, events[0]).state, events[1..]);
    }
  }

  lemma {:induction false} RunChatGpt(w: World, s: ChatGptState, events: seq<SseEvent>)
    ensures var o := Run(ChatGptHandle(w.decode), s, events);
            Run(HandleEither(w), OfChatGpt(s), events) == Outcome(OfChatGpt(o.state), o.threw)
    decreases events
  {
    if events != [] {
      hide ChatGpt.Receive;
      RunChatGpt(w, ChatGptHandle(w.decode)(s, events[0]).state, events[1..]);
    }
  }

  /** Claude's chunks and ends, as the two-site adapter has them. */
  lemma ClaudeLifts(w: World, buffer: string, s: ClaudeState, chunk: string)
    ensures var o := OnChunk(ClaudeHandle(w.decode), Stream(buffer, s), chunk);
            ClaudeAdapter(w).onChunk(Stream(buffer, OfClaude(s)), chunk)
            == Outcome(Stream(o.state.buffer, OfClaude(o.state.state)), o.threw)
    ensures var o := OnDone(ClaudeHandle(w.decode), Stream(buffer, s));
            ClaudeAdapter(w).onDone(Stream(buffer, OfClaude(s)))
            == Outcome(Stream(o.state.buffer, OfClaude(o.state.state)), o.threw)
  {
    hide Cut, NormalizeCrlf, FrameEvents, FlushEvents, Run, HandleEither, ClaudeHandle;
    RunClaude(w, s, FrameEvents(Cut(NormalizeCrlf(buffer + chunk)).frames));
    RunClaude(w, s, FlushEvents(buffer));
  }

  lemma ChatGptLifts(w: World, buffer: string, s: ChatGptState, chunk: string)
    ensures var o := OnChunk(ChatGptHandle(w.decode), Stream(buffer, s), chunk);
            ChatGptAdapter(w).onChunk(Stream(buffer, OfChatGpt(s)), chunk)
            == Outcome(Stream(o.state.buffer, OfChatGpt(o.state.state)), o.threw)
    ensures var o := OnDone(ChatGptHandle(w.decode), Stream(buffer, s));
            ChatGptAdapter(w).onDone(Stream(buffer, OfChatGpt(s)))
            == Outcome(Stream(o.state.buffer, OfChatGpt(o.state.state)), o.threw)
  {
    hide Cut, NormalizeCrlf, FrameEvents, FlushEvents, Run, HandleEither, ChatGptHandle;
    RunChatGpt(w, s, FrameEvents(Cut(NormalizeCrlf(buffer + chunk)).frames));
    RunChatGpt(w, s, FlushEvents(buffer));
  }

  lemma {:induction false} RunKeepsOrder(decode: string -> Option<Json>, s: ClaudeState, events: seq<SseEvent>)
    requires Claude.WellOrdered(s.parsed.blocks)
    ensures Claude.WellOrdered(Run(ClaudeHandle(decode), s, events).state.parsed.blocks)
    decreases events
  {
    if events != [] {
      hide Claude.NextBlocks, Claude.WellOrdered;
      var data := events[0].data;
      if !Claude.NoPayload(decode, data) && !Claude.Throws(decode, data) {
        Claude.NextStaysOrdered(s.parsed.blocks, decode(data).value);
      }
      RunKeepsOrder(decode, ClaudeHandle(decode)(s, events[0]).state, events[1..]);
    }
  }

  // ---------------------------------------------------- the map of parsers

  datatype Machine =
    | ClaudeMachine(sse: SSEParser, claude: Claude.ClaudeParser)
    | ChatGptMachine(sse: SSEParser, chatGpt: ChatGptParser)

  function AdapterFor(w: World, m: Machine): Adapter<Stream<SiteState>, SiteTurn> {
    if m.ClaudeMachine? then ClaudeAdapter(w) else ChatGptAdapter(w)
  }

  /** A parser's objects are among those it owns and hold the state. For ChatGPT only `s` can say it:
      what the captured message shares with the document shows in no single value. */
  ghost predicate Sound(m: Machine, s: SiteState, owned: set<object>)
    reads owned
  {
    m.sse in owned
    && match m
       case ClaudeMachine(_, claude) =>
         claude in owned
         && s == OfClaude(ClaudeState(claude.View(), claude.request)) && Claude.WellOrdered(claude.blocks)
       case ChatGptMachine(_, chatGpt) =>
         chatGpt in owned && chatGpt.objects <= owned && Nodes(chatGpt.tree) + Nodes(chatGpt.alias) <= chatGpt.objects
         && s.OfChatGpt? && Holds(chatGpt, s.chatGpt)
  }

  lemma ChunkKeepsOrder(decode: string -> Option<Json>, buffer: string, s: ClaudeState, chunk: string)
    requires Claude.WellOrdered(s.parsed.blocks)
    ensures Claude.WellOrdered(OnChunk(ClaudeHandle(decode), Stream(buffer, s), chunk).state.state.parsed.blocks)
    ensures Claude.WellOrdered(OnDone(ClaudeHandle(decode), Stream(buffer, s)).state.state.parsed.blocks)
  {
    hide Cut, NormalizeCrlf, FrameEvents, FlushEvents, Run, ClaudeHandle;
    RunKeepsOrder(decode, s, FrameEvents(Cut(NormalizeCrlf(buffer + chunk)).frames));
    RunKeepsOrder(decode, s, FlushEvents(buffer));
  }

  lemma ClaudeSound(m: Machine, s: SiteState, owned: set<object>)
    requires Sound(m, s, owned) && m.ClaudeMachine?
    ensures m.sse in owned && m.claude in owned && s == OfClaude(ClaudeState(m.claude.View(), m.claude.request))
    ensures Claude.WellOrdered(m.claude.blocks)
  {
  }

  lemma SoundOwnsSse(m: Machine, s: SiteState, owned: set<object>)
    requires Sound(m, s, owned)
    ensures m.sse in owned
  {
  }

  lemma ChatGptSound(m: Machine, s: SiteState, owned: set<object>)
    requires Sound(m, s, owned) && m.ChatGptMachine?
    ensures m.sse in owned && m.chatGpt in owned && m.chatGpt.objects <= owned
    ensures s.OfChatGpt? && Holds(m.chatGpt, s.chatGpt)
  {
  }

  /** A Claude stream's onChunk on its objects. */
  method ClaudeMachineChunk(w: World, m: Machine, chunk: string, ghost s: SiteState, ghost owned: set<object>)
    returns (threw: bool, ghost s': SiteState)
    requires Sound(m, s, owned) && m.ClaudeMachine?
    modifies owned
    ensures Sound(m, s', owned)
    ensures Outcome(Stream(m.sse.buffer, s'), threw) == ClaudeAdapter(w).onChunk(Stream(old(m.sse.buffer), s), chunk)
  {
    ghost var buffer := m.sse.buffer;
    ClaudeSound(m, s, owned);
    hide OnChunk, ClaudeHandle, ClaudeAdapter, Claude.WellOrdered;
    ClaudeLifts(w, buffer, s.claude, chunk);
    ChunkKeepsOrder(w.decode, buffer, s.claude, chunk);
    threw := ClaudeOnChunk(m.sse, m.claude, w.decode, chunk);
    s' := OfClaude(ClaudeState(m.claude.View(), m.claude.request));
  }

  method ClaudeMachineDone(w: World, m: Machine, ghost s: SiteState, ghost owned: set<object>)
    returns (threw: bool, ghost s': SiteState)
    requires Sound(m, s, owned) && m.ClaudeMachine?
    modifies owned
    ensures Sound(m, s', owned)
    ensures Outcome(Stream(m.sse.buffer, s'), threw) == ClaudeAdapter(w).onDone(Stream(old(m.sse.buffer), s))
  {
    ghost var buffer := m.sse.buffer;
    ClaudeSound(m, s, owned);
    hide OnDone, ClaudeHandle, ClaudeAdapter, Claude.WellOrdered;
    ClaudeLifts(w, buffer, s.claude, "");
    ChunkKeepsOrder(w.decode, buffer, s.claude, "");
    threw := ClaudeOnDone(m.sse, m.claude, w.decode);
    s' := OfClaude(ClaudeState(m.claude.View(), m.claude.request));
  }

  /** A ChatGPT stream's onChunk on its objects; new ones come from the frames decoded. */
  method ChatGptMachineChunk(w: World, m: Machine, chunk: string, ghost s: SiteState, ghost owned: set<object>)
    returns (threw: bool, ghost s': SiteState, ghost owned': set<object>)
    requires Sound(m, s, owned) && m.ChatGptMachine?
    modifies owned
    ensures Sound(m, s', owned') && fresh(owned' - owned)
    ensures Outcome(Stream(m.sse.buffer, s'), threw) == ChatGptAdapter(w).onChunk(Stream(old(m.sse.buffer), s), chunk)
  {
    ghost var buffer := m.sse.buffer;
    ChatGptSound(m, s, owned);
    hide OnChunk, ChatGptHandle, ChatGptAdapter;
    ChatGptLifts(w, buffer, s.chatGpt, chunk);
    threw := ChatGptOnChunk(m.sse, m.chatGpt, w.decode, chunk, s.chatGpt);
    s' := OfChatGpt(OnChunk(ChatGptHandle(w.decode), Stream(buffer, s.chatGpt), chunk).state.state);
    owned' := owned + m.chatGpt.objects;
  }

  method ChatGptMachineDone(w: World, m: Machine, ghost s: SiteState, ghost owned: set<object>)
    returns (threw: bool, ghost s': SiteState, ghost owned': set<object>)
    requires Sound(m, s, owned) && m.ChatGptMachine?
    modifies owned
    ensures Sound(m, s', owned') && fresh(owned' - owned)
    ensures Outcome(Stream(m.sse.buffer, s'), threw) == ChatGptAdapter(w).onDone(Stream(old(m.sse.buffer), s))
  {
    ghost var buffer := m.sse.buffer;
    ChatGptSound(m, s, owned);
    hide OnDone, ChatGptHandle, ChatGptAdapter;
    ChatGptLifts(w, buffer, s.chatGpt, "");
    threw := ChatGptOnDone(m.sse, m.chatGpt, w.decode, s.chatGpt);
    s' := OfChatGpt(OnDone(ChatGptHandle(w.decode), Stream(buffer, s.chatGpt)).state.state);
    owned' := owned + m.chatGpt.objects;
  }

  /** onChunk of either parser. */
  method MachineChunk(w: World, m: Machine, chunk: string, ghost s: SiteState, ghost owned: set<object>)
    returns (threw: bool, ghost s': SiteState, ghost owned': set<object>)
    requires Sound(m, s, owned)
    modifies owned
    ensures Sound(m, s', owned') && fresh(owned' - owned)
    ensures Outcome(Stream(m.sse.buffer, s'), threw) == AdapterFor(w, m).onChunk(Stream(old(m.sse.buffer), s), chunk)
  {
    hide Sound, ClaudeAdapter, ChatGptAdapter;
    if m.ClaudeMachine? {
      threw, s' := ClaudeMachineChunk(w, m, chunk, s, owned);
      owned' := owned;
    } else {
      threw, s', owned' := ChatGptMachineChunk(w, m, chunk, s, owned);
    }
  }

  method MachineDone(w: World, m: Machine, ghost s: SiteState, ghost owned: set<object>)
    returns (threw: bool, ghost s': SiteState, ghost owned': set<object>)
    requires Sound(m, s, owned)
    modifies owned
    ensures Sound(m, s', owned') && fresh(owned' - owned)
    ensures Outcome(Stream(m.sse.buffer, s'), threw) == AdapterFor(w, m).onDone(Stream(old(m.sse.buffer), s))
  {
    hide Sound, ClaudeAdapter, ChatGptAdapter;
    if m.ClaudeMachine? {
      threw, s' := ClaudeMachineDone(w, m, s, owned);
      owned' := owned;
    } else {
      threw, s', owned' := ChatGptMachineDone(w, m, s, owned);
    }
  }

  method MachineTurn(w: World, m: Machine, ghost s: SiteState, ghost owned: set<object>) returns (made: Made<SiteTurn>)
    requires Sound(m, s, owned)
    ensures made == AdapterFor(w, m).getTurn(Stream(m.sse.buffer, s))
  {
    hide Claude.TurnOf, ChatGpt.TurnOf;
    if m.ClaudeMachine? {
      ClaudeSound(m, s, owned);
      var turn := m.claude.GetTurn(w.decode);
      return ClaudeMade(turn);
    }
    ChatGptSound(m, s, owned);
    var turn := ChatGptGetTurn(m.chatGpt, s.chatGpt);
    return ChatGptMade(turn);
  }

  /** createParser and onRequest: new objects for a new stream. */
  method OpenClaude(w: World, r: Intercept) returns (m: Machine, ghost s: SiteState, ghost owned: set<object>)
    requires r.Request?
    ensures Sound(m, s, owned) && fresh(owned)
    ensures Live(AdapterFor(w, m), Stream(m.sse.buffer, s)) == Opened(ClaudeAdapter(w), r)
  {
    var (model, request) := w.claudeRequest(r.reqId, r.url, r.httpMethod, r.body);
    var sse := new SSEParser();
    var claude := new Claude.ClaudeParser(model, request);
    m, s, owned := ClaudeMachine(sse, claude), ClaudeStart(model, request), {sse, claude};
  }

  method OpenChatGpt(w: World, r: Intercept) returns (m: Machine, ghost s: SiteState, ghost owned: set<object>)
    requires r.Request?
    ensures Sound(m, s, owned) && fresh(owned)
    ensures Live(AdapterFor(w, m), Stream(m.sse.buffer, s)) == Opened(ChatGptAdapter(w), r)
  {
    var (sessionId, request) := w.chatGptRequest(r.reqId, r.url, r.httpMethod, r.body);
    var sse := new SSEParser();
    var chatGpt := new ChatGptParser(request, sessionId);
    m, s, owned := ChatGptMachine(sse, chatGpt), ChatGptStart(sessionId, request), {sse, chatGpt} + chatGpt.objects;
  }

  // -------------------------------------------------------- the assembler

  ghost function Union(owned: map<string, set<object>>): set<object> {
    set k, o | k in owned && o in owned[k] :: o
  }

  ghost predicate Disjoint(owned: map<string, set<object>>) {
    forall k, l | k in owned && l in owned && k != l :: owned[k] !! owned[l]
  }

  /** The objects of every stream hold its state. */
  ghost predicate AllSound(machines: map<string, Machine>, states: map<string, SiteState>,
                           owned: map<string, set<object>>)
    reads Union(owned)
  {
    && states.Keys == owned.Keys == machines.Keys
    && forall k | k in machines :: machines[k].sse in owned[k] && Sound(machines[k], states[k], owned[k])
  }

  lemma PutDisjoint(owned: map<string, set<object>>, k: string, own: set<object>, more: set<object>)
    requires Disjoint(owned) && own <= (if k in owned then owned[k] else {}) + more && more !! Union(owned)
    ensures Disjoint(owned[k := own]) && Union(owned[k := own]) <= Union(owned) + more
  {
    forall l | l in owned ensures owned[l] <= Union(owned) { }
  }

  lemma PutSound(machines: map<string, Machine>, states: map<string, SiteState>, owned: map<string, set<object>>,
                 k: string, m: Machine, s: SiteState, own: set<object>)
    requires states.Keys == owned.Keys == machines.Keys && Sound(m, s, own)
    requires forall l | l in machines && l != k ::
               machines[l].sse in owned[l] && Sound(machines[l], states[l], owned[l])
    ensures AllSound(machines[k := m], states[k := s], owned[k := own])
  {
    SoundOwnsSse(m, s, own);
  }

  lemma PutView<V>(before: map<string, V>, after: map<string, V>, k: string, v: V)
    requires after.Keys == before.Keys + {k} && after[k] == v
    requires forall l | l in before && l != k :: after[l] == before[l]
    ensures after == before[k := v]
  {
  }

  lemma CutDisjoint(owned: map<string, set<object>>, k: string)
    requires Disjoint(owned)
    ensures Disjoint(owned - {k}) && Union(owned - {k}) <= Union(owned)
  {
  }

  lemma CutSound(machines: map<string, Machine>, states: map<string, SiteState>, owned: map<string, set<object>>,
                 k: string)
    requires AllSound(machines, states, owned)
    ensures AllSound(machines - {k}, states - {k}, owned - {k})
  {
    hide Sound;
  }

  lemma CutView<V>(before: map<string, V>, after: map<string, V>, k: string)
    requires after.Keys == before.Keys - {k} && forall l | l in after :: after[l] == before[l]
    ensures after == before - {k}
  {
  }

  /** What the registry opens for a call, adapter by adapter. */
  lemma RegistryOpens(w: World, c: Call)
    requires c.event.Request?
    ensures var a := if w.claudeHost(c.host) then ClaudeAdapter(w) else ChatGptAdapter(w);
            Opens(Registry(w), c)
            == if (w.claudeHost(c.host) || w.chatGptHost(c.host)) && a.matchesRequest(c.event.url, c.event.httpMethod)
               then Some(Opened(a, c.event)) else None
  {
    assert ClaudeAdapter(w).matchesHost == w.claudeHost && ChatGptAdapter(w).matchesHost == w.chatGptHost;
    hide ClaudeAdapter, ChatGptAdapter;
    FirstOfTwo(ClaudeAdapter(w), ChatGptAdapter(w), c.host);
  }

  lemma FirstOfTwo<P, T>(a: Adapter<P, T>, b: Adapter<P, T>, host: string)
    ensures AdapterForHost([a, b], host)
         == if a.matchesHost(host) then Some(a) else if b.matchesHost(host) then Some(b) else None
  {
    assert [a, b][1..] == [b] && [b][1..] == [];
    assert AdapterForHost<P, T>([], host) == None;
    assert AdapterForHost([b], host) == if b.matchesHost(host) then Some(b) else None;
  }

  lemma RequestStep(w: World, before: map<string, Live<Stream<SiteState>, SiteTurn>>, k: string, c: Call)
    requires c.event.Request?
    ensures var a := if w.claudeHost(c.host) then ClaudeAdapter(w) else ChatGptAdapter(w);
            Store(before, k, StepOne(Registry(w), Lookup(before, k), c))
            == if (w.claudeHost(c.host) || w.chatGptHost(c.host)) && a.matchesRequest(c.event.url, c.event.httpMethod)
               then before[k := Opened(a, c.event)] else before
  {
    hide Registry, ClaudeAdapter, ChatGptAdapter, Opens;
    RegistryOpens(w, c);
    if k in before { assert before[k := before[k]] == before; } else { assert before - {k} == before; }
  }

  lemma SitesMatch(w: World)
    ensures ClaudeAdapter(w).matchesRequest == w.claudeMatches && ChatGptAdapter(w).matchesRequest == w.chatGptMatches
  {
  }

  /** A request opens the parser of its host's site, Claude's first, with what its adapter reads out of
      the request's number, URL, method and body, and with nothing parsed yet. */
  lemma SitesOpen(w: World, c: Call)
    requires c.event.Request?
    ensures var r := c.event;
            Opens(Registry(w), c).Some?
            <==> if w.claudeHost(c.host) then w.claudeMatches(r.url, r.httpMethod)
                 else w.chatGptHost(c.host) && w.chatGptMatches(r.url, r.httpMethod)
    ensures var r := c.event;
            var (model, asked) := w.claudeRequest(r.reqId, r.url, r.httpMethod, r.body);
            var (sessionId, asked') := w.chatGptRequest(r.reqId, r.url, r.httpMethod, r.body);
            var claude := Claude.Parsed(model, "", "", Claude.Usage(None, None, None, None),
                                        Claude.Blocks([], map[]), false);
            var chatGpt := ChatGpt.State(ChatGpt.Mirror(Null, ChatGpt.Nothing), Str(""), Str(""), sessionId, false);
            Opens(Registry(w), c).Some? ==>
              Opens(Registry(w), c).value.state
              == Stream("", if w.claudeHost(c.host) then OfClaude(ClaudeState(claude, asked))
                            else OfChatGpt(ChatGptState(chatGpt, asked')))
  {
    RegistryOpens(w, c);
    SitesMatch(w);
    hide Opens, Registry;
  }

  class Background {
    const w: World
    var machines: map<string, Machine>
    ghost var states: map<string, SiteState>
    ghost var owned: map<string, set<object>>

    /** Each stream is parsed with objects of its own. */
    ghost predicate Valid()
      reads this, Union(owned)
    {
      && states.Keys == owned.Keys == machines.Keys && this !in Union(owned)
      && Disjoint(owned) && AllSound(machines, states, owned)
    }

    ghost function View(): map<string, Live<Stream<SiteState>, SiteTurn>>
      requires states.Keys == machines.Keys
      reads this, set k | k in machines :: machines[k].sse
    {
      map k | k in machines :: Live(AdapterFor(w, machines[k]), Stream(machines[k].sse.buffer, states[k]))
    }

    constructor (w: World)
      ensures Valid() && View() == map[] && this.w == w
    {
      this.w, machines, states, owned := w, map[], map[], map[];
    }

    /** Record what the stream under `k` holds now; the others are as they were. */
    ghost method Record(k: string, s: SiteState, own: set<object>, more: set<object>)
      requires k in machines && Sound(machines[k], s, own) && states.Keys == owned.Keys == machines.Keys
      requires Disjoint(owned) && this !in Union(owned) + more && more !! Union(owned) && own <= owned[k] + more
      requires forall l | l in machines && l != k ::
               machines[l].sse in owned[l] && Sound(machines[l], states[l], owned[l])
      modifies `states, `owned
      ensures Valid() && states == old(states)[k := s] && owned == old(owned)[k := own]
      ensures Union(owned) <= old(Union(owned)) + more
    {
      hide Sound;
      PutDisjoint(owned, k, own, more);
      PutSound(machines, states, owned, k, machines[k], s, own);
      assert machines[k := machines[k]] == machines;
      hide AllSound, Union, Disjoint;
      states, owned := states[k := s], owned[k := own];
    }

    method HandleChunk(k: string, chunk: string) returns (threw: bool)
      requires Valid() && k in machines
      modifies `states, `owned, owned[k]
      ensures Valid() && fresh(Union(owned) - old(Union(owned)))
      ensures var live := old(View())[k];
              && threw == live.adapter.onChunk(live.state, chunk).threw
              && View() == old(View())[k := live.(state := live.adapter.onChunk(live.state, chunk).state)]
    {
      hide Sound, AdapterFor;
      ghost var live, s, own := View()[k], states[k], owned[k];
      assert owned[k] <= Union(owned);
      threw, s, own := MachineChunk(w, machines[k], chunk, s, own);
      forall l | l in machines && l != k
        ensures machines[l].sse in owned[l] && Sound(machines[l], states[l], owned[l])
        ensures machines[l].sse.buffer == old(machines[l].sse.buffer)
      {
        assert owned[l] !! owned[k];
      }
      hide AllSound, Disjoint, Union;
      Record(k, s, own, own - owned[k]);
      PutView(old(View()), View(), k, live.(state := live.adapter.onChunk(live.state, chunk).state));
    }

    method HandleDone(k: string) returns (threw: bool)
      requires Valid() && k in machines
      modifies `states, `owned, owned[k]
      ensures Valid() && fresh(Union(owned) - old(Union(owned)))
      ensures var live := old(View())[k];
              && threw == live.adapter.onDone(live.state).threw
              && View() == old(View())[k := live.(state := ClosedState(live))]
    {
      hide Sound, AdapterFor;
      ghost var live, s, own := View()[k], states[k], owned[k];
      assert owned[k] <= Union(owned);
      threw, s, own := MachineDone(w, machines[k], s, own);
      forall l | l in machines && l != k
        ensures machines[l].sse in owned[l] && Sound(machines[l], states[l], owned[l])
        ensures machines[l].sse.buffer == old(machines[l].sse.buffer)
      {
        assert owned[l] !! owned[k];
      }
      hide AllSound, Disjoint, Union;
      Record(k, s, own, own - owned[k]);
      PutView(old(View()), View(), k, live.(state := ClosedState(live)));
    }

    lemma InsertedStands(k: string, m: Machine, s: SiteState, own: set<object>)
      requires Valid() && Sound(m, s, own) && own !! Union(owned) && this !in own
      ensures var states', owned', machines' := states[k := s], owned[k := own], machines[k := m];
              && states'.Keys == owned'.Keys == machines'.Keys && this !in Union(owned')
              && Disjoint(owned') && AllSound(machines', states', owned') && Union(owned') <= Union(owned) + own
    {
      hide Sound;
      PutDisjoint(owned, k, own, own);
      PutSound(machines, states, owned, k, m, s, own);
      hide Union, Disjoint, AllSound;
    }

    /** entries.set: a new stream under `k`, in place of any other. */
    method Insert(k: string, m: Machine, ghost s: SiteState, ghost own: set<object>)
      requires Valid() && Sound(m, s, own) && own !! Union(owned) && this !in own
      modifies `machines, `states, `owned
      ensures Valid() && Union(owned) <= old(Union(owned)) + own
      ensures View() == old(View())[k := Live(AdapterFor(w, m), Stream(m.sse.buffer, s))]
    {
      hide Sound, AdapterFor, AllSound, Disjoint, Union;
      InsertedStands(k, m, s, own);
      machines, states, owned := machines[k := m], states[k := s], owned[k := own];
      PutView(old(View()), View(), k, Live(AdapterFor(w, m), Stream(m.sse.buffer, s)));
    }

    /** entries.delete. */
    method Delete(k: string)
      requires Valid()
      modifies `machines, `states, `owned
      ensures Valid() && Union(owned) <= old(Union(owned)) && View() == old(View()) - {k}
    {
      hide Sound, AdapterFor;
      CutDisjoint(owned, k);
      CutSound(machines, states, owned, k);
      hide AllSound, Disjoint, Union;
      machines, states, owned := machines - {k}, states - {k}, owned - {k};
      CutView(old(View()), View(), k);
    }

    method TurnUnder(k: string) returns (made: Made<SiteTurn>)
      requires Valid() && k in machines
      ensures made == View()[k].adapter.getTurn(View()[k].state)
      ensures Valid() && View() == old(View()) && Union(owned) == old(Union(owned))
    {
      hide Sound, AdapterFor, Disjoint;
      made := MachineTurn(w, machines[k], states[k], owned[k]);
    }

    /** onDone, getTurn, and then the entry is deleted; an exception in either leaves it there. */
    method HandleEnd(k: string) returns (turn: Option<SiteTurn>, threw: bool)
      requires Valid() && k in machines
      modifies `machines, `states, `owned, owned[k]
      ensures Valid() && fresh(Union(owned) - old(Union(owned)))
      ensures var live := old(View())[k];
              && threw == ClosingThrows(live) && turn == ClosingTurn(live)
              && View() == if threw then old(View())[k := live.(state := ClosedState(live))] else old(View()) - {k}
    {
      hide Sound, AdapterFor, Disjoint, Union, AllSound;
      ghost var before := View();
      ghost var live := before[k];
      threw := HandleDone(k);
      if threw {
        return None, true;
      }
      ghost var closed := before[k := live.(state := ClosedState(live))];
      assert View() == closed && k in View();
      var made := TurnUnder(k);
      if made.Threw? {
        return None, true;
      }
      Delete(k);
      assert closed - {k} == before - {k};
      return made.value, false;
    }

    method InsertClaude(k: string, r: Intercept)
      requires Valid() && r.Request?
      modifies `machines, `states, `owned
      ensures Valid() && fresh(Union(owned) - old(Union(owned)))
      ensures View() == old(View())[k := Opened(ClaudeAdapter(w), r)]
    {
      hide Sound, Disjoint, AllSound, AdapterFor, Opened;
      ghost var before := View();
      var m, s, own := OpenClaude(w, r);
      assert Valid() && own !! Union(owned) && this !in own;
      assert View() == before;
      hide Union, Valid;
      Insert(k, m, s, own);
    }

    method InsertChatGpt(k: string, r: Intercept)
      requires Valid() && r.Request?
      modifies `machines, `states, `owned
      ensures Valid() && fresh(Union(owned) - old(Union(owned)))
      ensures View() == old(View())[k := Opened(ChatGptAdapter(w), r)]
    {
      hide Sound, Disjoint, AllSound, AdapterFor, Opened;
      ghost var before := View();
      var m, s, own := OpenChatGpt(w, r);
      assert Valid() && own !! Union(owned) && this !in own;
      assert View() == before;
      hide Union, Valid;
      Insert(k, m, s, own);
    }

    /** A request opens a new parser of the first site that knows the host, if that site takes the request. */
    method HandleRequest(k: string, c: Call)
      requires Valid() && c.event.Request?
      modifies `machines, `states, `owned
      ensures Valid() && fresh(Union(owned) - old(Union(owned)))
      ensures View() == Store(old(View()), k, StepOne(Registry(w), Lookup(old(View()), k), c))
    {
      RequestStep(w, View(), k, c);
      SitesMatch(w);
      hide *;
      if w.claudeHost(c.host) {
        if w.claudeMatches(c.event.url, c.event.httpMethod) {
          InsertClaude(k, c.event);
        }
      } else if w.chatGptHost(c.host) {
        if w.chatGptMatches(c.event.url, c.event.httpMethod) {
          InsertChatGpt(k, c.event);
        }
      }
    }

    /** handle: one intercepted event, on the objects of its own stream alone. */
    method Handle(host: string, tabId: Option<int>, event: Intercept) returns (turn: Option<SiteTurn>, threw: bool)
      requires Valid()
      modifies this, Union(owned)
      ensures Valid() && fresh(Union(owned) - old(Union(owned)))
      ensures var c, k := Call(host, tabId, event), KeyOf(tabId, event.reqId);
              && turn == TurnOne(Lookup(old(View()), k), c) && threw == ThrowsOne(Lookup(old(View()), k), c)
              && View() == Store(old(View()), k, StepOne(Registry(w), Lookup(old(View()), k), c))
    {
      hide KeyOf, Sound, Disjoint, AllSound, AdapterFor, Registry, ClosingThrows, ClosingTurn, ClosedState;
      var k := KeyOf(tabId, event.reqId);
      if event.Request? {
        HandleRequest(k, Call(host, tabId, event));
        return None, false;
      }
      if k !in machines {
        assert View() == Store(old(View()), k, None);
        return None, false;
      }
      assert owned[k] <= Union(owned);
      if event.Chunk? {
        threw := HandleChunk(k, event.chunk);
        return None, threw;
      }
      turn, threw := HandleEnd(k);
    }

    /** The worker's listener: one message, and the turn it completes if any. */
    method Listen(c: Call, ghost front: seq<Call>, turns: seq<(string, SiteTurn)>)
      returns (turns': seq<(string, SiteTurn)>, ghost grown: set<object>)
      requires Valid() && View() == After(Registry(w), front) && turns == Turns(Registry(w), front)
      modifies this, Union(owned)
      ensures Valid() && Union(owned) <= old(Union(owned)) + grown && fresh(grown)
      ensures View() == After(Registry(w), front + [c]) && turns' == Turns(Registry(w), front + [c])
    {
      hide After, Turns, StepOne, TurnOne, ThrowsOne, Store, Lookup, KeyOf, Registry, AllSound, Disjoint, Sound;
      ghost var before := Union(owned);
      ServedOne(w, front, c);
      var turn, threw := Handle(c.host, c.tabId, c.event);
      turns' := turns + if turn.Some? then [(KeyOf(c.tabId, c.event.reqId), turn.value)] else [];
      grown := Union(owned) - before;
    }

    /** Message after message; an exception ends only the one that threw. */
    method Serve(calls: seq<Call>) returns (turns: seq<(string, SiteTurn)>)
      requires Valid() && View() == map[]
      modifies this, Union(owned)
      ensures Valid() && View() == After(Registry(w), calls) && turns == Turns(Registry(w), calls)
    {
      NothingServed(w);
      hide After, Turns, Registry, AllSound, Disjoint, Sound, AdapterFor, View, Union;
      turns := [];
      assert calls[..0] == [];
      ghost var start, grown: set<object> := Union(owned), {};
      for n := 0 to |calls|
        invariant Valid() && Union(owned) <= start + grown && fresh(grown)
        invariant View() == After(Registry(w), calls[..n]) && turns == Turns(Registry(w), calls[..n])
      {
        assert calls[..n] + [calls[n]] == calls[..n + 1];
        ghost var more;
        turns, more := Listen(calls[n], calls[..n], turns);
        grown := grown + more;
      }
      assert calls[..|calls|] == calls;
    }
  }

  lemma NothingServed(w: World)
    ensures After(Registry(w), []) == map[] && Turns(Registry(w), []) == []
  {
  }

  lemma ServedOne(w: World, front: seq<Call>, c: Call)
    ensures var m, k := After(Registry(w), front), KeyOf(c.tabId, c.event.reqId);
            && c == Call(c.host, c.tabId, c.event)
            && After(Registry(w), front + [c]) == Store(m, k, StepOne(Registry(w), Lookup(m, k), c))
            && Turns(Registry(w), front + [c])
               == Turns(Registry(w), front)
                  + if TurnOne(Lookup(m, k), c).Some? then [(k, TurnOne(Lookup(m, k), c).value)] else []
  {
    hide KeyOf, Registry, StepOne, TurnOne, Store, Lookup;
    assert (front + [c])[..|front|] == front;
  }

  /** A whole Claude stream among all others, in which nothing throws, emits one turn: its request's
      prompt with the text, model, counts and completion its events come to; or none, without prompt,
      text and blocks. */
  lemma ClaudeAmongAll(w: World, calls: seq<Call>, k: string, own: seq<Call>, s: ClaudeState)
    requires OfKey(calls, k) == own && IsStream(Registry(w), ClaudeSite(w), own)
    requires Opening(ClaudeSite(w), own[0].event) == OfClaude(s) && CrCrLfFree(StreamText(own))
    requires forall e | e in Events([StreamText(own)]) :: !Claude.Throws(w.decode, e.data)
    ensures var p, r := Run(ClaudeHandle(w.decode), s, Events([StreamText(own)])).state.parsed, s.request;
            var turns := TurnsOfKey(Turns(Registry(w), calls), k);
            if p.text == "" && p.blocks.order == [] && r.prompt == "" then turns == []
            else
              |turns| == 1 && turns[0].ClaudeTurned? && var t := turns[0].claude;
              && t.prompt == r.prompt && t.text == p.text && t.model == p.model && t.usage == p.usage
              && t.completed == p.completed
              && t.sessionId == (if r.sessionId != "" then r.sessionId else "claude-unknown-" + Show(r.id))
              && t.turnKey == if p.messageId != "" then p.messageId else "r" + Show(r.id)
  {
    var events := Events([StreamText(own)]);
    assert ClaudeSite(w).handle == HandleEither(w) && ClaudeSite(w).turn == TurnOfEither(w);
    OpensOrdered(w, own[0].event, s);
    hide Run, ClaudeSite, Registry, OfKey, Turns, TurnsOfKey, Events, StreamText, IsStream, CrCrLfFree, Claude.Throws,
         Claude.Tools, Opening, Claude.WellOrdered, Show;
    ClaudeRuns(w.decode, s, events);
    RunClaude(w, s, events);
    TurnOfText(Registry(w), ClaudeSite(w), calls, k, own, OfClaude(s));
    RequestStays(w.decode, s, events);
    RunKeepsOrder(w.decode, s, events);
    TurnOfOrdered(Run(ClaudeHandle(w.decode), s, events).state.parsed, s.request, w.decode);
  }

  lemma OpensOrdered(w: World, r: Intercept, s: ClaudeState)
    requires r.Request? && Opening(ClaudeSite(w), r) == OfClaude(s)
    ensures Claude.WellOrdered(s.parsed.blocks)
  {
  }

  lemma TurnOfOrdered(p: Claude.Parsed, r: Claude.Request, decode: string -> Option<Json>)
    requires Claude.WellOrdered(p.blocks)
    ensures forall i | i in p.blocks.order :: i in p.blocks.entries
  {
  }

  /** The same for a ChatGPT stream, captured message and all. */
  lemma ChatGptAmongAll(w: World, calls: seq<Call>, k: string, own: seq<Call>, s: ChatGptState)
    requires OfKey(calls, k) == own && IsStream(Registry(w), ChatGptSite(w), own)
    requires Opening(ChatGptSite(w), own[0].event) == OfChatGpt(s) && CrCrLfFree(StreamText(own))
    requires !Run(ChatGptHandle(w.decode), s, Events([StreamText(own)])).threw
    ensures var after := Run(ChatGptHandle(w.decode), s, Events([StreamText(own)])).state;
            TurnsOfKey(Turns(Registry(w), calls), k)
            == Emitted(Given(ChatGptMade(ChatGpt.TurnOf(after.parsed, after.request))))
  {
    var events := Events([StreamText(own)]);
    assert ChatGptSite(w).handle == HandleEither(w) && ChatGptSite(w).turn == TurnOfEither(w);
    hide Run, ChatGptSite, Registry, OfKey, Turns, TurnsOfKey, Events, StreamText, IsStream, CrCrLfFree, ChatGpt.TurnOf,
         Given, Opening;
    RunChatGpt(w, s, events);
    TurnOfText(Registry(w), ChatGptSite(w), calls, k, own, OfChatGpt(s));
  }

  lemma {:induction false} RequestStays(decode: string -> Option<Json>, s: ClaudeState, events: seq<SseEvent>)
    ensures Run(ClaudeHandle(decode), s, events).state.request == s.request
    decreases events
  {
    if events != [] {
      hide Claude.Receive, Claude.Throws;
      RequestStays(decode, ClaudeHandle(decode)(s, events[0]).state, events[1..]);
    }
  }
}
