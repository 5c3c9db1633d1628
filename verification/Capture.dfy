// browser-extension/src/adapters/claude.ts, chatgpt.ts and background/assembler.ts together:
// from interleaved chunks of many streams to one turn per stream.
module Capture {
  import opened Text
  import opened Json
  import opened Sse
  import opened SseStream
  import opened Assembler
  import opened ChatGptDoc
  import opened ChatGptParsing
  import Claude
  import ChatGpt

  /** A parser: what its SSEParser still holds, and what its events have come to. */
  datatype Stream<S> = Stream(buffer: string, state: S)

  /** `for (const evt of events) this.handle(evt)`: an exception ends the loop. */
  function Run<S>(handle: (S, SseEvent) -> Outcome<S>, s: S, events: seq<SseEvent>): Outcome<S> {
    if events == [] then Outcome(s, false)
    else
      var o := handle(s, events[0]);
      if o.threw then o else Run(handle, o.state, events[1..])
  }

  function OnChunk<S>(handle: (S, SseEvent) -> Outcome<S>, st: Stream<S>, chunk: string): Outcome<Stream<S>> {
    var c := Cut(NormalizeCrlf(st.buffer + chunk));
    var o := Run(handle, st.state, FrameEvents(c.frames));
    Outcome(Stream(c.rest, o.state), o.threw)
  }

  function OnDone<S>(handle: (S, SseEvent) -> Outcome<S>, st: Stream<S>): Outcome<Stream<S>> {
    var o := Run(handle, st.state, FlushEvents(st.buffer));
    Outcome(Stream("", o.state), o.threw)
  }

  /** A run of chunks; one that throws leaves what it had come to. */
  function OnChunks<S>(handle: (S, SseEvent) -> Outcome<S>, st: Stream<S>, chunks: seq<string>): Stream<S> {
    if chunks == [] then st
    else OnChunk(handle, OnChunks(handle, st, chunks[..|chunks| - 1]), chunks[|chunks| - 1]).state
  }

  // -------------------------------------------------- one stream, whole

  lemma {:induction false} RunAppend<S>(handle: (S, SseEvent) -> Outcome<S>, s: S, a: seq<SseEvent>, b: seq<SseEvent>)
    ensures var o := Run(handle, s, a);
            Run(handle, s, a + b) == if o.threw then o else Run(handle, o.state, b)
  {
    if a == [] {
      assert a + b == b;
    } else {
      assert (a + b)[1..] == a[1..] + b;
      RunAppend(handle, handle(s, a[0]).state, a[1..], b);
    }
  }

  lemma {:induction false} FeedSnoc(buffer: string, chunks: seq<string>, chunk: string)
    ensures var f := Feed(buffer, chunks);
            var c := Cut(NormalizeCrlf(f.rest + chunk));
            Feed(buffer, chunks + [chunk]) == Cutting(f.frames + c.frames, c.rest)
    decreases chunks
  {
    hide Cut, NormalizeCrlf;
    if chunks == [] {
      assert chunks + [chunk] == [chunk] && [chunk][1..] == [];
    } else {
      assert (chunks + [chunk])[1..] == chunks[1..] + [chunk];
      FeedSnoc(Cut(NormalizeCrlf(buffer + chunks[0])).rest, chunks[1..], chunk);
    }
  }

  lemma OnChunksSnoc<S>(handle: (S, SseEvent) -> Outcome<S>, st: Stream<S>, chunks: seq<string>, chunk: string)
    ensures OnChunks(handle, st, chunks + [chunk]) == OnChunk(handle, OnChunks(handle, st, chunks), chunk).state
  {
    hide OnChunk;
    assert (chunks + [chunk])[..|chunks|] == chunks;
  }

  lemma NoChunks<S>(handle: (S, SseEvent) -> Outcome<S>, s: S)
    ensures OnChunks(handle, Stream("", s), []) == Stream("", s)
    ensures Feed("", []) == Cutting([], "") && Run(handle, s, FrameEvents([])).state == s
  {
  }

  /** While nothing throws, pushing chunks one by one is running over all their events. */
  lemma {:induction false} ChunksAreRun<S>(handle: (S, SseEvent) -> Outcome<S>, s: S, chunks: seq<string>)
    requires !Run(handle, s, FrameEvents(Feed("", chunks).frames)).threw
    ensures var f := Feed("", chunks);
            OnChunks(handle, Stream("", s), chunks) == Stream(f.rest, Run(handle, s, FrameEvents(f.frames)).state)
  {
    hide Cut, NormalizeCrlf, Run, FrameEvents, Feed, OnChunks;
    NoChunks(handle, s);
    if chunks != [] {
      var front, last := chunks[..|chunks| - 1], chunks[|chunks| - 1];
      assert front + [last] == chunks;
      FeedSnoc("", front, last);
      OnChunksSnoc(handle, Stream("", s), front, last);
      var f := Feed("", front);
      var c := Cut(NormalizeCrlf(f.rest + last));
      FrameEventsAppend(f.frames, c.frames);
      RunAppend(handle, s, FrameEvents(f.frames), FrameEvents(c.frames));
      ChunksAreRun(handle, s, front);
    }
  }

  /** While nothing throws, what a stream comes to is one run over the events of its text. */
  lemma StreamIsRun<S>(handle: (S, SseEvent) -> Outcome<S>, s: S, chunks: seq<string>)
    requires CrCrLfFree(Concat(chunks)) && !Run(handle, s, Events([Concat(chunks)])).threw
    ensures OnDone(handle, OnChunks(handle, Stream("", s), chunks))
         == Outcome(Stream("", Run(handle, s, Events([Concat(chunks)])).state), false)
  {
    hide Run, Feed;
    EventsOfText(chunks);
    var f := Feed("", chunks);
    RunAppend(handle, s, FrameEvents(f.frames), FlushEvents(f.rest));
    ChunksAreRun(handle, s, chunks);
  }

  /** An event that throws takes those behind it in its chunk with it, so there the cuts show. */
  lemma ThrowingShowsTheCuts<S>(handle: (S, SseEvent) -> Outcome<S>, s: S, a: SseEvent, b: SseEvent)
    requires Printable(a) && Printable(b) && handle(s, a).threw
    ensures OnChunks(handle, Stream("", s), [PrintAll([a]) + PrintAll([b])]) == Stream("", handle(s, a).state)
    ensures OnChunks(handle, Stream("", s), [PrintAll([a]), PrintAll([b])])
         == Stream("", handle(handle(s, a).state, b).state)
  {
    hide Cut, NormalizeCrlf, PrintAll, FrameEvents, OnChunks, Run;
    var pa, pb, st, s' := PrintAll([a]), PrintAll([b]), Stream("", s), handle(s, a).state;
    PrintedChunk([a]);
    PrintedChunk([b]);
    PrintedChunk([a, b]);
    PrintTwo(a, b);
    assert "" + (pa + pb) == pa + pb && "" + pa == pa && "" + pb == pb;
    NoChunks(handle, s);
    OnChunksSnoc(handle, st, [], pa + pb);
    OnChunksSnoc(handle, st, [], pa);
    OnChunksSnoc(handle, st, [pa], pb);
    assert [] + [pa + pb] == [pa + pb] && [] + [pa] == [pa] && [pa] + [pb] == [pa, pb];
    RunOne(handle, s, a, [b]);
    RunOne(handle, s, a, []);
    RunOne(handle, s', b, []);
    assert [a] + [b] == [a, b] && [a] + [] == [a] && [b] + [] == [b];
  }

  lemma RunOne<S>(handle: (S, SseEvent) -> Outcome<S>, s: S, e: SseEvent, more: seq<SseEvent>)
    ensures var o := handle(s, e);
            Run(handle, s, [e] + more) == if o.threw then o else Run(handle, o.state, more)
    ensures more == [] ==> Run(handle, s, [e] + more).state == handle(s, e).state
  {
    assert ([e] + more)[1..] == more;
  }

  lemma PrintTwo(a: SseEvent, b: SseEvent)
    ensures PrintAll([a, b]) == PrintAll([a]) + PrintAll([b])
  {
    assert [a, b][1..] == [b] && [a][1..] == [];
    assert PrintAll([]) == "";
  }

  lemma PrintedChunk(events: seq<SseEvent>)
    requires forall e | e in events :: Printable(e)
    ensures var c := Cut(NormalizeCrlf(PrintAll(events))); c.rest == "" && FrameEvents(c.frames) == events
  {
    CutPrinted(events);
    WithoutCrIsFree(PrintAll(events));
    NormalizeIdle(PrintAll(events));
    PrintedFramesRead(events);
  }

  // ---------------------------------- which events the cuts leave out

  /** A parser that only writes down the events it is given. */
  function Logging(throws: SseEvent -> bool): (seq<SseEvent>, SseEvent) -> Outcome<seq<SseEvent>> {
    (log: seq<SseEvent>, e: SseEvent) => Outcome(log + [e], throws(e))
  }

  /** What chunks come to when an exception ends the loop over its chunk: what is left in the buffer,
      and the events that were handled. */
  function Handled(throws: SseEvent -> bool, chunks: seq<string>): Stream<seq<SseEvent>> {
    OnChunks(Logging(throws), Stream("", []), chunks)
  }

  /** The events a text closes. */
  function ClosedEvents(text: string): seq<SseEvent> {
    FrameEvents(Cut(NormalizeCrlf(text)).frames)
  }

  /** Only the last event may throw. */
  predicate ThrowsAtMostLast(throws: SseEvent -> bool, events: seq<SseEvent>) {
    forall i | 0 <= i < |events| - 1 :: !throws(events[i])
  }

  lemma {:induction false} RunLogs(throws: SseEvent -> bool, log: seq<SseEvent>, events: seq<SseEvent>)
    ensures Run(Logging(throws), log, events).state == log + events <==> ThrowsAtMostLast(throws, events)
    decreases events
  {
    if events == [] {
      assert log + events == log;
    } else {
      var e, rest := events[0], events[1..];
      assert log + [e] + rest == log + events;
      if throws(e) {
        assert rest == [] ==> log + events == log + [e];
      } else {
        RunLogs(throws, log + [e], rest);
        assert forall i | 0 <= i < |rest| :: rest[i] == events[i + 1];
        assert ThrowsAtMostLast(throws, events) <==> ThrowsAtMostLast(throws, rest);
      }
    }
  }

  lemma SplitThrows(throws: SseEvent -> bool, a: seq<SseEvent>, b: seq<SseEvent>)
    requires ThrowsAtMostLast(throws, a + b)
    ensures ThrowsAtMostLast(throws, a) && ThrowsAtMostLast(throws, b)
  {
    forall i | 0 <= i < |a| ensures a[i] == (a + b)[i] { }
    forall i | 0 <= i < |b| ensures b[i] == (a + b)[|a| + i] { }
  }

  lemma {:induction false} AllLogged(throws: SseEvent -> bool, chunks: seq<string>)
    requires ThrowsAtMostLast(throws, FrameEvents(Feed("", chunks).frames))
    ensures var f := Feed("", chunks); Handled(throws, chunks) == Stream(f.rest, FrameEvents(f.frames))
  {
    hide Cut, NormalizeCrlf, Run, FrameEvents, Feed, OnChunks, ThrowsAtMostLast;
    if chunks == [] {
      NoChunks(Logging(throws), []);
      NothingFramed();
    } else {
      var front, last := chunks[..|chunks| - 1], chunks[|chunks| - 1];
      assert front + [last] == chunks;
      FeedSnoc("", front, last);
      OnChunksSnoc(Logging(throws), Stream("", []), front, last);
      var f := Feed("", front);
      var c := Cut(NormalizeCrlf(f.rest + last));
      FrameEventsAppend(f.frames, c.frames);
      SplitThrows(throws, FrameEvents(f.frames), FrameEvents(c.frames));
      AllLogged(throws, front);
      RunLogs(throws, FrameEvents(f.frames), FrameEvents(c.frames));
    }
  }

  lemma NothingFramed()
    ensures FrameEvents([]) == [] && Feed("", []) == Cutting([], "")
  {
  }

  /** If some closed event but the last throws, the uncut text already loses events. */
  lemma OneCutMisses(throws: SseEvent -> bool, text: string)
    ensures Handled(throws, [text]).state == ClosedEvents(text) <==> ThrowsAtMostLast(throws, ClosedEvents(text))
    ensures Concat([text]) == text
  {
    hide Cut, NormalizeCrlf, Run, FrameEvents, OnChunks, ThrowsAtMostLast;
    assert [text][1..] == [];
    NoChunks(Logging(throws), []);
    OnChunksSnoc(Logging(throws), Stream("", []), [], text);
    assert [] + [text] == [text] && "" + text == text && [] + ClosedEvents(text) == ClosedEvents(text);
    RunLogs(throws, [], ClosedEvents(text));
  }

  /** However a text without "\r\r\n" is cut, all its closed events are handled, exactly when none of
      them but the last throws. */
  lemma AllHandledExactly(throws: SseEvent -> bool, text: string)
    requires CrCrLfFree(text)
    ensures (forall chunks: seq<string> | Concat(chunks) == text ::
               Handled(throws, chunks) == Stream(Cut(NormalizeCrlf(text)).rest, ClosedEvents(text)))
       <==> ThrowsAtMostLast(throws, ClosedEvents(text))
  {
    hide Cut, NormalizeCrlf, Run, FrameEvents, Feed, OnChunks, ThrowsAtMostLast, CrCrLfFree;
    if ThrowsAtMostLast(throws, ClosedEvents(text)) {
      forall chunks: seq<string> | Concat(chunks) == text
        ensures Handled(throws, chunks) == Stream(Cut(NormalizeCrlf(text)).rest, ClosedEvents(text))
      {
        FeedIsCut(chunks);
        AllLogged(throws, chunks);
      }
    } else {
      OneCutMisses(throws, text);
    }
  }

  // ------------------------------------------- among many streams

  /** What a site's adapter is made of besides its SSEParser. */
  datatype Site<!S, !T> = Site(
    matchesHost: string -> bool,
    matchesRequest: (string, string) -> bool,
    create: int -> S,
    request: (S, string, string, Option<string>) -> S,
    handle: (S, SseEvent) -> Outcome<S>,
    turn: S -> Made<T>)

  function AdapterOf<S, T>(site: Site<S, T>): Adapter<Stream<S>, T> {
    Adapter(
      site.matchesHost, site.matchesRequest,
      reqId => Stream("", site.create(reqId)),
      (st: Stream<S>, url, httpMethod, body) => st.(state := site.request(st.state, url, httpMethod, body)),
      (st: Stream<S>, chunk) => OnChunk(site.handle, st, chunk),
      (st: Stream<S>) => OnDone(site.handle, st),
      (st: Stream<S>) => site.turn(st.state))
  }

  function ChunkTexts(calls: seq<Call>): (chunks: seq<string>)
    requires forall c | c in calls :: c.event.Chunk?
    ensures |chunks| == |calls|
  {
    if calls == [] then [] else ChunkTexts(calls[..|calls| - 1]) + [calls[|calls| - 1].event.chunk]
  }

  /** A whole stream as its key's calls: an accepted request, chunks, and an end. */
  ghost predicate IsStream<S, T>(registry: seq<Adapter<Stream<S>, T>>, site: Site<S, T>, own: seq<Call>) {
    && |own| >= 2 && own[0].event.Request? && (own[|own| - 1].event.Finished? || own[|own| - 1].event.Failed?)
    && (forall c | c in own[1..|own| - 1] :: c.event.Chunk?)
    && AdapterForHost(registry, own[0].host) == Some(AdapterOf(site))
    && site.matchesRequest(own[0].event.url, own[0].event.httpMethod)
  }

  function StreamText(own: seq<Call>): string
    requires |own| >= 2 && forall c | c in own[1..|own| - 1] :: c.event.Chunk?
  {
    Concat(ChunkTexts(own[1..|own| - 1]))
  }

  /** The parser state an accepted request starts from. */
  function Opening<S, T>(site: Site<S, T>, r: Intercept): S
    requires r.Request?
  {
    site.request(site.create(r.reqId), r.url, r.httpMethod, r.body)
  }

  lemma {:induction false} OfKeyHas(calls: seq<Call>, k: string)
    ensures forall c | c in OfKey(calls, k) :: CallKey(c) == k
  {
    hide CallKey;
    if calls != [] { OfKeyHas(calls[..|calls| - 1], k); }
  }

  lemma MidsAreChunks(own: seq<Call>, n: nat)
    requires |own| >= 2 && 1 <= n < |own| && forall c | c in own[1..|own| - 1] :: c.event.Chunk?
    ensures forall c | c in own[1..n] :: c.event.Chunk?
    ensures n > 1 ==> own[n - 1].event.Chunk? && forall c | c in own[1..n - 1] :: c.event.Chunk?
  {
    forall c | c in own[1..n] ensures c.event.Chunk? {
      assert c in own[1..|own| - 1];
    }
  }

  lemma ChunkTextsSnoc(calls: seq<Call>, c: Call)
    requires c.event.Chunk? && forall d | d in calls :: d.event.Chunk?
    ensures ChunkTexts(calls + [c]) == ChunkTexts(calls) + [c.event.chunk]
  {
    assert (calls + [c])[..|calls|] == calls;
  }

  /** Until its end comes, a stream of its own holds the parser its chunks have led to. */
  lemma {:induction false} HeldWhileStreaming<S, T>(registry: seq<Adapter<Stream<S>, T>>, site: Site<S, T>,
                                                    own: seq<Call>, k: string, n: nat)
    requires IsStream(registry, site, own) && forall c | c in own :: CallKey(c) == k
    requires 1 <= n < |own|
    ensures forall c | c in own[1..n] :: c.event.Chunk?
    ensures var st := OnChunks(site.handle, Stream("", Opening(site, own[0].event)), ChunkTexts(own[1..n]));
            Lookup(After(registry, own[..n]), k) == Some(Live(AdapterOf(site), st))
    ensures TurnsOfKey(Turns(registry, own[..n]), k) == []
  {
    hide CallKey, OnChunk, OnChunks, After, Turns, TurnsOfKey, ChunkTexts, Lookup;
    MidsAreChunks(own, n);
    var front, c := own[..n - 1], own[n - 1];
    assert own[..n] == front + [c];
    OneCall(registry, front, c, k);
    TurnsOfKeyGrow(registry, front, c, k);
    if n == 1 {
      NothingYet(registry, k);
      NoChunks(site.handle, Opening(site, own[0].event));
      assert front == [] && own[1..1] == [] && ChunkTexts([]) == [];
    } else {
      HeldWhileStreaming(registry, site, own, k, n - 1);
      assert own[1..n] == own[1..n - 1] + [c];
      ChunkTextsSnoc(own[1..n - 1], c);
      OnChunksSnoc(site.handle, Stream("", Opening(site, own[0].event)), ChunkTexts(own[1..n - 1]), c.event.chunk);
    }
  }

  lemma NothingYet<P, T>(registry: seq<Adapter<P, T>>, k: string)
    ensures Lookup(After(registry, []), k) == None && TurnsOfKey(Turns(registry, []), k) == []
  {
  }

  /** The turn a parser gives at the end of its stream, if nothing throws. */
  function EndTurn<S, T>(site: Site<S, T>, st: Stream<S>): Option<T> {
    var o := OnDone(site.handle, st);
    if o.threw then None else Given(site.turn(o.state.state))
  }

  function Given<T>(made: Made<T>): Option<T> {
    match made case Threw => None case Made(turn) => turn
  }

  lemma EndTurnIsClosing<S, T>(site: Site<S, T>, st: Stream<S>)
    ensures ClosingTurn(Live(AdapterOf(site), st)) == EndTurn(site, st)
    ensures ClosingThrows(Live(AdapterOf(site), st))
       <==> OnDone(site.handle, st).threw || site.turn(OnDone(site.handle, st).state.state).Threw?
  {
    hide OnDone;
  }

  /** Whatever else goes on, a whole stream emits the turn read off the parser it led to. If its end
      throws it emits nothing, and its key stays held. */
  lemma StreamEmits<S, T>(registry: seq<Adapter<Stream<S>, T>>, site: Site<S, T>, calls: seq<Call>, k: string,
                          own: seq<Call>)
    requires OfKey(calls, k) == own && IsStream(registry, site, own)
    ensures var st := OnChunks(site.handle, Stream("", Opening(site, own[0].event)), ChunkTexts(own[1..|own| - 1]));
            && TurnsOfKey(Turns(registry, calls), k) == Emitted(EndTurn(site, st))
            && (Lookup(After(registry, calls), k).Some? <==> ClosingThrows(Live(AdapterOf(site), st)))
  {
    hide CallKey, OnChunks, OnDone, After, Turns, TurnsOfKey, OfKey, ChunkTexts, AdapterOf, EndTurn, ClosingTurn,
         ClosingThrows, ClosedState, Lookup;
    OfKeyHas(calls, k);
    StreamsAreIndependent(registry, calls, k);
    var front, c := own[..|own| - 1], own[|own| - 1];
    assert own == front + [c];
    HeldWhileStreaming(registry, site, own, k, |own| - 1);
    EndTurnIsClosing(site, OnChunks(site.handle, Stream("", Opening(site, own[0].event)),
                                    ChunkTexts(own[1..|own| - 1])));
    TurnsOfKeyGrow(registry, front, c, k);
    OneCall(registry, front, c, k);
  }

  lemma EndTurnOf<S, T>(site: Site<S, T>, st: Stream<S>, s: S)
    requires OnDone(site.handle, st) == Outcome(Stream("", s), false)
    ensures EndTurn(site, st) == Given(site.turn(s))
  {
    hide OnDone;
  }

  lemma StreamChunks<S, T>(registry: seq<Adapter<Stream<S>, T>>, site: Site<S, T>, own: seq<Call>)
    requires IsStream(registry, site, own)
    ensures |own| >= 2 && own[0].event.Request? && forall c | c in own[1..|own| - 1] :: c.event.Chunk?
    ensures StreamText(own) == Concat(ChunkTexts(own[1..|own| - 1]))
  {
  }

  /** However streams interleave and however their text is cut, a stream without "\r\r\n" in
      which nothing throws emits the turn its events amount to. */
  lemma TurnOfText<S, T>(registry: seq<Adapter<Stream<S>, T>>, site: Site<S, T>, calls: seq<Call>, k: string,
                         own: seq<Call>, s: S)
    requires OfKey(calls, k) == own && IsStream(registry, site, own) && Opening(site, own[0].event) == s
    requires CrCrLfFree(StreamText(own)) && !Run(site.handle, s, Events([StreamText(own)])).threw
    ensures TurnsOfKey(Turns(registry, calls), k)
         == Emitted(Given(site.turn(Run(site.handle, s, Events([StreamText(own)])).state)))
  {
    hide *;
    StreamChunks(registry, site, own);
    StreamEmits(registry, site, calls, k, own);
    StreamIsRun(site.handle, s, ChunkTexts(own[1..|own| - 1]));
    EndTurnOf(site, OnChunks(site.handle, Stream("", s), ChunkTexts(own[1..|own| - 1])),
              Run(site.handle, s, Events([StreamText(own)])).state);
  }

  function OneChunk(host: string, tab: Option<int>, request: Intercept, text: string): seq<Call> {
    [Call(host, tab, request), Call(host, tab, Chunk(request.reqId, text)), Call(host, tab, Finished(request.reqId))]
  }

  lemma ThreeOfKey(a: Call, b: Call, c: Call, k: string)
    requires CallKey(a) == CallKey(b) == CallKey(c) == k
    ensures OfKey([a, b, c], k) == [a, b, c]
  {
    hide CallKey, OfKey;
    NoneOfKey(k);
    OfKeySnoc([], a, k);
    OfKeySnoc([a], b, k);
    OfKeySnoc([a, b], c, k);
    assert [] + [a] == [a] && [a] + [b] == [a, b] && [a, b] + [c] == [a, b, c];
  }

  lemma NoneOfKey(k: string)
    ensures OfKey([], k) == []
  {
  }

  lemma OneChunkIsOwn(host: string, tab: Option<int>, request: Intercept, text: string)
    ensures OfKey(OneChunk(host, tab, request, text), KeyOf(tab, request.reqId)) == OneChunk(host, tab, request, text)
  {
    hide KeyOf, OfKey;
    var calls := OneChunk(host, tab, request, text);
    ThreeOfKey(calls[0], calls[1], calls[2], KeyOf(tab, request.reqId));
  }

  /** A request, its whole response in one chunk and an end make such a stream. */
  lemma SimplestStream<S, T>(site: Site<S, T>, host: string, tab: Option<int>, request: Intercept, text: string)
    requires request.Request? && site.matchesHost(host) && site.matchesRequest(request.url, request.httpMethod)
    ensures var calls := OneChunk(host, tab, request, text);
            && OfKey(calls, KeyOf(tab, request.reqId)) == calls
            && IsStream([AdapterOf(site)], site, calls) && StreamText(calls) == text
  {
    OneChunkIsOwn(host, tab, request, text);
    hide OfKey, KeyOf;
    var chunk := Call(host, tab, Chunk(request.reqId, text));
    assert OneChunk(host, tab, request, text)[1..2] == [chunk];
    assert ChunkTexts([chunk]) == [text] by {
      assert [chunk][..0] == [];
    }
    assert Concat([text]) == text by {
      assert [text][1..] == [];
    }
  }

  /** Two streams of one text come to the same turn: neither the cuts nor the company they keep,
      in one browser or in another, make a difference. */
  lemma SameTextSameTurn<S, T>(registry: seq<Adapter<Stream<S>, T>>, calls: seq<Call>, k: string, own: seq<Call>,
                               registry': seq<Adapter<Stream<S>, T>>, calls': seq<Call>, k': string, own': seq<Call>,
                               site: Site<S, T>, s: S)
    requires OfKey(calls, k) == own && IsStream(registry, site, own) && Opening(site, own[0].event) == s
    requires OfKey(calls', k') == own' && IsStream(registry', site, own') && Opening(site, own'[0].event) == s
    requires StreamText(own) == StreamText(own') && CrCrLfFree(StreamText(own))
    requires !Run(site.handle, s, Events([StreamText(own)])).threw
    ensures TurnsOfKey(Turns(registry, calls), k) == TurnsOfKey(Turns(registry', calls'), k')
  {
    hide *;
    StreamChunks(registry, site, own);
    StreamChunks(registry', site, own');
    TurnOfText(registry, site, calls, k, own, s);
    TurnOfText(registry', site, calls', k', own', s);
  }

  // ---------------------------------------------------- the two sites

  datatype ClaudeState = ClaudeState(parsed: Claude.Parsed, request: Claude.Request)

  function ClaudeHandle(decode: string -> Option<Json>): (ClaudeState, SseEvent) -> Outcome<ClaudeState> {
    (s: ClaudeState, e: SseEvent) =>
      Outcome(s.(parsed := Claude.Receive(s.parsed, decode, e.data)), Claude.Throws(decode, e.data))
  }

  function ClaudeTurn(decode: string -> Option<Json>): ClaudeState -> Made<Claude.Turn> {
    (s: ClaudeState) => Made(Claude.TurnOf(s.parsed, s.request, decode))
  }

  datatype ChatGptState = ChatGptState(parsed: ChatGpt.State, request: ChatGpt.Request)

  function ChatGptHandle(decode: string -> Option<Json>): (ChatGptState, SseEvent) -> Outcome<ChatGptState> {
    (s: ChatGptState, e: SseEvent) =>
      var o := ChatGpt.Receive(s.parsed, decode, e.event, e.data);
      Outcome(s.(parsed := o.state), o.threw)
  }

  function ChatGptTurn(): ChatGptState -> Made<ChatGpt.Turn> {
    (s: ChatGptState) => ChatGpt.TurnOf(s.parsed, s.request)
  }

  /** A Claude stream throws exactly when some payload is `null`. */
  lemma {:induction false} ClaudeRuns(decode: string -> Option<Json>, s: ClaudeState, events: seq<SseEvent>)
    ensures Run(ClaudeHandle(decode), s, events).threw
       <==> exists i :: 0 <= i < |events| && Claude.Throws(decode, events[i].data)
    decreases events
  {
    if events != [] {
      hide Claude.Throws, Claude.Receive;
      var rest := events[1..];
      ClaudeRuns(decode, s.(parsed := Claude.Receive(s.parsed, decode, events[0].data)), rest);
      assert forall i | 0 <= i < |rest| :: rest[i] == events[i + 1];
      if i :| 0 <= i < |events| && Claude.Throws(decode, events[i].data) {
        assert i > 0 ==> rest[i - 1] == events[i];
      }
    }
  }

  function ClaudeThrows(decode: string -> Option<Json>): SseEvent -> bool {
    (e: SseEvent) => Claude.Throws(decode, e.data)
  }

  /** The payloads of events, one step each. */
  function ReceiveAll(p: Claude.Parsed, decode: string -> Option<Json>, events: seq<SseEvent>): Claude.Parsed {
    if events == [] then p
    else Claude.Receive(ReceiveAll(p, decode, events[..|events| - 1]), decode, events[|events| - 1].data)
  }

  lemma ReceiveSnoc(p: Claude.Parsed, decode: string -> Option<Json>, events: seq<SseEvent>, e: SseEvent)
    ensures ReceiveAll(p, decode, events + [e]) == Claude.Receive(ReceiveAll(p, decode, events), decode, e.data)
  {
    hide Claude.Receive;
    assert (events + [e])[..|events|] == events;
  }

  lemma {:induction false} ClaudeRunIsLog(decode: string -> Option<Json>, s: ClaudeState, log: seq<SseEvent>,
                                          events: seq<SseEvent>)
    ensures var o := Run(Logging(ClaudeThrows(decode)), log, events);
            Run(ClaudeHandle(decode), s.(parsed := ReceiveAll(s.parsed, decode, log)), events)
            == Outcome(s.(parsed := ReceiveAll(s.parsed, decode, o.state)), o.threw)
    decreases events
  {
    hide Claude.Receive, Claude.Throws, ReceiveAll;
    if events != [] {
      ReceiveSnoc(s.parsed, decode, log, events[0]);
      ClaudeRunIsLog(decode, s, log + [events[0]], events[1..]);
    }
  }

  /** What chunks come to in a Claude parser is one step for each event handled. */
  lemma {:induction false} ClaudeIsItsLog(decode: string -> Option<Json>, s: ClaudeState, chunks: seq<string>)
    ensures var h := Handled(ClaudeThrows(decode), chunks);
            OnChunks(ClaudeHandle(decode), Stream("", s), chunks)
            == Stream(h.buffer, s.(parsed := ReceiveAll(s.parsed, decode, h.state)))
  {
    hide Cut, NormalizeCrlf, Run, FrameEvents, OnChunks, ReceiveAll, Claude.Receive, Claude.Throws;
    if chunks == [] {
      NoChunks(Logging(ClaudeThrows(decode)), []);
      NoChunks(ClaudeHandle(decode), s);
      assert ReceiveAll(s.parsed, decode, []) == s.parsed by { ReceiveNone(s.parsed, decode); }
    } else {
      var front, last := chunks[..|chunks| - 1], chunks[|chunks| - 1];
      assert front + [last] == chunks;
      ClaudeIsItsLog(decode, s, front);
      OnChunksSnoc(Logging(ClaudeThrows(decode)), Stream("", []), front, last);
      OnChunksSnoc(ClaudeHandle(decode), Stream("", s), front, last);
      var h := Handled(ClaudeThrows(decode), front);
      ClaudeRunIsLog(decode, s, h.state, FrameEvents(Cut(NormalizeCrlf(h.buffer + last)).frames));
    }
  }

  lemma ReceiveNone(p: Claude.Parsed, decode: string -> Option<Json>)
    ensures ReceiveAll(p, decode, []) == p
  {
  }

  /** Every cut of a Claude stream without "\r\r\n" takes in all its closed events, exactly when no
      closed event but the last is a `null`; the parser then has made a step for each. */
  lemma ClaudeAllCuts(decode: string -> Option<Json>, s: ClaudeState, text: string)
    requires CrCrLfFree(text)
    ensures (forall chunks: seq<string> | Concat(chunks) == text ::
               Handled(ClaudeThrows(decode), chunks).state == ClosedEvents(text))
       <==> forall i | 0 <= i < |ClosedEvents(text)| - 1 :: !Claude.Throws(decode, ClosedEvents(text)[i].data)
    ensures forall chunks: seq<string> | Concat(chunks) == text ::
              OnChunks(ClaudeHandle(decode), Stream("", s), chunks).state.parsed
              == ReceiveAll(s.parsed, decode, Handled(ClaudeThrows(decode), chunks).state)
  {
    hide ClosedEvents, Handled, CrCrLfFree, Claude.Throws, OnChunks, Concat, Cut, NormalizeCrlf, ReceiveAll;
    AllHandledExactly(ClaudeThrows(decode), text);
    OneCutMisses(ClaudeThrows(decode), text);
    forall chunks: seq<string> {
      ClaudeIsItsLog(decode, s, chunks);
    }
  }

  /** The written-out operations of a run of events, with inherited ops and paths filled in. */
  function RunOps(decode: string -> Option<Json>, s: ChatGptState, events: seq<SseEvent>): seq<ChatGpt.Plain> {
    if events == [] then []
    else
      var front, e := events[..|events| - 1], events[|events| - 1];
      RunOps(decode, s, front)
      + ChatGpt.EventOps(Run(ChatGptHandle(decode), s, front).state.parsed, decode, e.event, e.data)
  }

  /** A run of events does to the document and the capture what its operations do. */
  lemma {:induction false} RunIsItsOps(decode: string -> Option<Json>, s: ChatGptState, events: seq<SseEvent>)
    ensures var o := Run(ChatGptHandle(decode), s, events);
            Outcome(o.state.parsed.mirror, o.threw) == ChatGpt.ApplyEach(s.parsed.mirror, RunOps(decode, s, events))
  {
    hide Run, ChatGpt.Receive, ChatGpt.ApplyEach, ChatGpt.EventOps;
    var handle := ChatGptHandle(decode);
    if events == [] {
      RunNothing(handle, s);
      ChatGpt.NoOps(s.parsed.mirror);
    } else {
      var front, e := events[..|events| - 1], events[|events| - 1];
      assert front + [e] == events;
      RunIsItsOps(decode, s, front);
      RunAppend(handle, s, front, [e]);
      var before := Run(handle, s, front).state;
      RunSingle(handle, before, e);
      ChatGpt.EventIsOps(before.parsed, decode, e.event, e.data);
      ChatGpt.ApplyEachAppend(s.parsed.mirror, RunOps(decode, s, front),
                              ChatGpt.EventOps(before.parsed, decode, e.event, e.data));
    }
  }

  /** A ChatGPT stream throws exactly when one of its operations is malformed, or one that is reached
      comes to a primitive for a container. */
  lemma ChatGptRuns(decode: string -> Option<Json>, s: ChatGptState, events: seq<SseEvent>)
    ensures var m, ops := s.parsed.mirror, RunOps(decode, s, events);
            Run(ChatGptHandle(decode), s, events).threw
            <==> (exists i :: 0 <= i < |ops| && ChatGpt.Malformed(ops[i]))
                 || exists i :: 0 <= i < |ops| && !ChatGpt.ApplyEach(m, ops[..i]).threw
                                && ChatGpt.Stuck(ChatGpt.ApplyEach(m, ops[..i]).state, ops[i])
  {
    hide Run, ChatGpt.ApplyEach, RunOps, ChatGpt.Malformed, ChatGpt.Stuck;
    RunIsItsOps(decode, s, events);
    ChatGpt.ThrowsExactly(s.parsed.mirror, RunOps(decode, s, events));
  }

  /** A delta whose path is no string, with the sentinel behind it: in one chunk the turn stays
      incomplete, in two it does not. */
  lemma BadPathShowsTheCuts(decode: string -> Option<Json>, s: ChatGptState, a: SseEvent, path: real)
    requires Printable(a) && a.data != "" && a.data != "[DONE]" && a.event != "delta_encoding"
    requires decode(a.data)
          == Some(Box(false, 0, map[Name("o") := Str("append"), Name("p") := Num(path), Name("v") := Str("x")]))
    ensures var done, handle := SseEvent(DEFAULT_EVENT, "[DONE]"), ChatGptHandle(decode);
            && OnChunks(handle, Stream("", s), [PrintAll([a]) + PrintAll([done])]).state.parsed.completed
               == s.parsed.completed
            && OnChunks(handle, Stream("", s), [PrintAll([a]), PrintAll([done])]).state.parsed.completed
  {
    hide PrintAll, OnChunks;
    var done := SseEvent(DEFAULT_EVENT, "[DONE]");
    ThrowingShowsTheCuts(ChatGptHandle(decode), s, a, done);
  }

  /** The end of a Claude stream throws exactly when what is flushed is a `null`. */
  lemma ClaudeEndThrows(site: Site<ClaudeState, Claude.Turn>, decode: string -> Option<Json>, st: Stream<ClaudeState>)
    requires site.handle == ClaudeHandle(decode) && site.turn == ClaudeTurn(decode)
    ensures ClosingThrows(Live(AdapterOf(site), st))
       <==> exists i :: 0 <= i < |FlushEvents(st.buffer)| && Claude.Throws(decode, FlushEvents(st.buffer)[i].data)
  {
    hide FlushEvents, Run, Claude.Throws, Claude.TurnOf;
    EndTurnIsClosing(site, st);
    ClaudeRuns(decode, st.state, FlushEvents(st.buffer));
  }

  /** The end of a ChatGPT stream throws exactly when what is flushed does, or the captured message
      has parts that are no array. */
  lemma ChatGptEndThrows(site: Site<ChatGptState, ChatGpt.Turn>, decode: string -> Option<Json>,
                         st: Stream<ChatGptState>)
    requires site.handle == ChatGptHandle(decode) && site.turn == ChatGptTurn()
    ensures var after := Run(ChatGptHandle(decode), st.state, FlushEvents(st.buffer));
            ClosingThrows(Live(AdapterOf(site), st))
            <==> after.threw || (var parts := Get(Get(ChatGpt.Captured(after.state.parsed.mirror), "content"), "parts");
                                 !Nullish(parts) && !(parts.Box? && parts.isArray))
  {
    hide FlushEvents, Run, ChatGpt.Captured;
    EndTurnIsClosing(site, st);
  }

  /** A Claude stream left open in `data: null`: its end throws. */
  lemma NullTailThrows(decode: string -> Option<Json>)
    requires decode("null") == Some(Null)
    ensures FlushEvents("data: " + "null") == [SseEvent(DEFAULT_EVENT, "null")] && Claude.Throws(decode, "null")
  {
    hide FlushEvents;
    OpenDataLine("null");
  }

  // ------------------------------------------------- the parser objects

  /** ClaudeParser.onChunk: the events its SSEParser cuts off, one after the other. */
  method ClaudeOnChunk(sse: SSEParser, parser: Claude.ClaudeParser, decode: string -> Option<Json>, chunk: string)
    returns (threw: bool)
    modifies sse, parser
    ensures Outcome(Stream(sse.buffer, ClaudeState(parser.View(), parser.request)), threw)
         == OnChunk(ClaudeHandle(decode), old(Stream(sse.buffer, ClaudeState(parser.View(), parser.request))), chunk)
  {
    var events := sse.Push(chunk);
    threw := ClaudeEach(parser, decode, events);
  }

  method ClaudeOnDone(sse: SSEParser, parser: Claude.ClaudeParser, decode: string -> Option<Json>)
    returns (threw: bool)
    modifies sse, parser
    ensures Outcome(Stream(sse.buffer, ClaudeState(parser.View(), parser.request)), threw)
         == OnDone(ClaudeHandle(decode), old(Stream(sse.buffer, ClaudeState(parser.View(), parser.request))))
  {
    var events := sse.Flush();
    threw := ClaudeEach(parser, decode, events);
  }

  method ClaudeEach(parser: Claude.ClaudeParser, decode: string -> Option<Json>, events: seq<SseEvent>)
    returns (threw: bool)
    modifies parser
    ensures Outcome(ClaudeState(parser.View(), parser.request), threw)
         == Run(ClaudeHandle(decode), old(ClaudeState(parser.View(), parser.request)), events)
  {
    var n := 0;
    ghost var handle, start := ClaudeHandle(decode), ClaudeState(parser.View(), parser.request);
    while n < |events|
      invariant 0 <= n <= |events|
      invariant Run(handle, start, events)
             == Run(handle, ClaudeState(parser.View(), parser.request), events[n..])
    {
      assert events[n..][1..] == events[n + 1..];
      threw := parser.HandleData(decode, events[n].data);
      if threw {
        return;
      }
      n := n + 1;
    }
    return false;
  }

  /** The objects of a ChatGPT parser hold a state. */
  ghost predicate Holds(parser: ChatGptParser, s: ChatGptState)
    reads parser, Nodes(parser.tree), Nodes(parser.alias)
  {
    parser.request == s.request && parser.View(s.parsed.mirror) == s.parsed && parser.Shows(s.parsed.mirror)
  }

  /** The operations of a run of events, as far as it gets. */
  ghost predicate AddNoVisibleRoot(decode: string -> Option<Json>, s: ChatGptState, events: seq<SseEvent>) {
    forall i | 0 <= i < |events| && !Run(ChatGptHandle(decode), s, events[..i]).threw ::
      var now := Run(ChatGptHandle(decode), s, events[..i]).state.parsed;
      forall p | p in ChatGpt.EventOps(now, decode, events[i].event, events[i].data) :: !ChatGpt.AddsVisible(p)
  }

  /** ChatGptParser.onChunk. */
  method ChatGptOnChunk(sse: SSEParser, parser: ChatGptParser, decode: string -> Option<Json>, chunk: string,
                        ghost s: ChatGptState) returns (threw: bool)
    requires Holds(parser, s)
    modifies sse, parser, parser.objects
    ensures var o := OnChunk(ChatGptHandle(decode), Stream(old(sse.buffer), s), chunk);
            threw == o.threw && sse.buffer == o.state.buffer && Holds(parser, o.state.state)
    ensures fresh(parser.objects - old(parser.objects))
  {
    var events := sse.Push(chunk);
    threw := ChatGptEach(parser, decode, events, s);
  }

  method ChatGptOnDone(sse: SSEParser, parser: ChatGptParser, decode: string -> Option<Json>, ghost s: ChatGptState)
    returns (threw: bool)
    requires Holds(parser, s)
    modifies sse, parser, parser.objects
    ensures var o := OnDone(ChatGptHandle(decode), Stream(old(sse.buffer), s));
            threw == o.threw && sse.buffer == o.state.buffer && Holds(parser, o.state.state)
    ensures fresh(parser.objects - old(parser.objects))
  {
    var events := sse.Flush();
    threw := ChatGptEach(parser, decode, events, s);
  }

  /** One event after the other. While none adds a visible root the captured object stays the same
      one, and out of the document it stays as it is. */
  method ChatGptEach(parser: ChatGptParser, decode: string -> Option<Json>, events: seq<SseEvent>,
                     ghost s: ChatGptState) returns (threw: bool)
    requires Holds(parser, s)
    modifies parser, parser.objects
    ensures var o := Run(ChatGptHandle(decode), s, events); threw == o.threw && Holds(parser, o.state)
    ensures fresh(parser.objects - old(parser.objects))
    ensures AddNoVisibleRoot(decode, s, events) ==>
              parser.assistantMsg == old(parser.assistantMsg) && parser.Frozen()
  {
    hide ChatGpt.Receive, Run, ChatGpt.EventOps, ChatGpt.AddsVisible;
    var n := 0;
    ghost var handle, now := ChatGptHandle(decode), s;
    RunNothing(handle, s);
    assert events[..0] == [];
    while n < |events|
      invariant 0 <= n <= |events|
      invariant Holds(parser, now)
      invariant Run(handle, s, events[..n]) == Outcome(now, false)
      invariant fresh(parser.objects - old(parser.objects))
      invariant AddNoVisibleRoot(decode, s, events) ==>
                  parser.assistantMsg == old(parser.assistantMsg) && parser.Frozen()
    {
      var e := events[n];
      threw := parser.HandleEvent(decode, e.event, e.data, now.parsed.mirror);
      assert events[..n + 1] == events[..n] + [e];
      RunAppend(handle, s, events[..n], [e]);
      RunSingle(handle, now, e);
      now := handle(now, e).state;
      n := n + 1;
      if threw {
        assert events == events[..n] + events[n..];
        RunAppend(handle, s, events[..n], events[n..]);
        return;
      }
    }
    assert events[..n] == events;
    return false;
  }

  lemma RunNothing<S>(handle: (S, SseEvent) -> Outcome<S>, s: S)
    ensures Run(handle, s, []) == Outcome(s, false)
  {
  }

  lemma RunSingle<S>(handle: (S, SseEvent) -> Outcome<S>, s: S, e: SseEvent)
    ensures Run(handle, s, [e]) == handle(s, e)
  {
    assert [e][1..] == [];
  }

  /** getTurn reads through the alias what the operations have made of the captured message: the
      document's own, or the one left behind with the parts it still shares. */
  method ChatGptGetTurn(parser: ChatGptParser, ghost s: ChatGptState) returns (turn: Made<ChatGpt.Turn>)
    requires Holds(parser, s)
    ensures turn == ChatGptTurn()(s)
  {
    hide ChatGpt.TurnOf;
    turn := parser.GetTurn(s.parsed.mirror);
  }

  // --------------------------------------------- from payloads to turns

  /** Payloads as events: any printable names, each payload's encoding as the data. */
  ghost predicate Carries(events: seq<SseEvent>, objs: seq<Json>, decode: string -> Option<Json>) {
    |events| == |objs| && forall i | 0 <= i < |events| ::
      && Printable(events[i]) && !Claude.NoPayload(decode, events[i].data)
      && decode(events[i].data) == Some(objs[i]) && !Nullish(objs[i])
  }

  lemma CarriedOne(e: SseEvent, obj: Json, decode: string -> Option<Json>, s: ClaudeState)
    requires !Claude.NoPayload(decode, e.data) && decode(e.data) == Some(obj) && !Nullish(obj)
    ensures Run(ClaudeHandle(decode), s, [e]) == Outcome(s.(parsed := Claude.Step(s.parsed, obj)), false)
  {
    hide Claude.Step, Claude.NoPayload;
    assert [e][1..] == [];
  }

  lemma {:induction false} CarriedFold(events: seq<SseEvent>, objs: seq<Json>, decode: string -> Option<Json>,
                                       s: ClaudeState)
    requires Carries(events, objs, decode)
    ensures Run(ClaudeHandle(decode), s, events) == Outcome(s.(parsed := Claude.Fold(s.parsed, objs)), false)
  {
    hide Claude.Step, Claude.NoPayload, Printable, ClaudeHandle;
    if events != [] {
      hide Run;
      var n := |events| - 1;
      CarriedFold(events[..n], objs[..n], decode, s);
      var so := s.(parsed := Claude.Fold(s.parsed, objs[..n]));
      CarriedOne(events[n], objs[n], decode, so);
      RunAppend(ClaudeHandle(decode), s, events[..n], [events[n]]);
      assert events == events[..n] + [events[n]];
    }
  }

  /** The model named in the request stands until a payload names another. */
  lemma {:induction false} FoldFromModel(model: Option<string>, objs: seq<Json>)
    ensures var p := Claude.Fold(Claude.NOTHING, objs);
            Claude.Fold(Claude.NOTHING.(model := model), objs) == p.(model := Claude.Newer(p.model, model))
  {
    if objs != [] { FoldFromModel(model, objs[..|objs| - 1]); }
  }

  /** Claude end to end: printed as events, cut anywhere and interleaved with anything, a stream
      of payloads gives the one turn its payloads amount to (Claude.StreamSays tells what that is). */
  lemma ClaudeTurnSays(registry: seq<Adapter<Stream<ClaudeState>, Claude.Turn>>, site: Site<ClaudeState, Claude.Turn>,
                       calls: seq<Call>, k: string, own: seq<Call>, s: ClaudeState,
                       decode: string -> Option<Json>, events: seq<SseEvent>, objs: seq<Json>)
    requires site.handle == ClaudeHandle(decode) && site.turn == ClaudeTurn(decode)
    requires OfKey(calls, k) == own && IsStream(registry, site, own) && StreamText(own) == PrintAll(events)
    requires Opening(site, own[0].event) == s && s.parsed == Claude.NOTHING.(model := s.parsed.model)
    requires Carries(events, objs, decode)
    ensures var turns, r := TurnsOfKey(Turns(registry, calls), k), s.request;
            if Claude.Texts(objs) == "" && Claude.Started(objs) == [] && r.prompt == "" then turns == []
            else
              |turns| == 1 && var t := turns[0];
              && t.prompt == r.prompt && t.text == Claude.Texts(objs)
              && t.sessionId == (if r.sessionId != "" then r.sessionId else "claude-unknown-" + Show(r.id))
              && (exists id :: Claude.IsLast(objs, Claude.MessageIdOf, id)
                               && t.turnKey == if id.Some? && id.value != "" then id.value else "r" + Show(r.id))
              && (exists m :: Claude.IsLast(objs, Claude.ModelOf, m)
                              && t.model == if m.Some? then m else s.parsed.model)
              && Claude.IsLast(objs, Claude.InputOf, t.usage.input)
              && Claude.IsLast(objs, Claude.OutputOf, t.usage.output)
              && Claude.IsLast(objs, Claude.CacheWritesOf, t.usage.cacheWrites)
              && Claude.IsLast(objs, Claude.CacheReadsOf, t.usage.cacheReads)
              && (t.completed <==> exists i :: 0 <= i < |objs| && Claude.Completes(objs[i]))
              && t.tools == Claude.ToolsUsed(objs, decode, |Claude.Started(objs)|)
  {
    hide OfKey, Run, Claude.Fold, Claude.TurnOf, PrintAll, Events, Turns, TurnsOfKey, CrCrLfFree;
    var text := PrintAll(events);
    CutPrinted(events);
    WithoutCrIsFree(text);
    assert Concat([text]) == text by {
      assert [text][1..] == [];
    }
    RoundTrip(events, [text]);
    CarriedFold(events, objs, decode, s);
    FoldFromModel(s.parsed.model, objs);
    TurnOfText(registry, site, calls, k, own, s);
    Claude.TurnSays(objs, s.parsed.model, s.request, decode);
    hide *;
  }
}
