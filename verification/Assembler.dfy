// browser-extension/src/background/assembler.ts: one parser per (tab, request), fed by one
// interleaved stream of intercept events.
module Assembler {
  import opened Text

  datatype Intercept =
    | Request(reqId: int, url: string, httpMethod: string, body: Option<string>)
    | Chunk(reqId: int, chunk: string)
    | Finished(reqId: int)
    | Failed(reqId: int)

  /** One relayed message: the page's host, the sender's tab if it has one, and the event. */
  datatype Call = Call(host: string, tabId: Option<int>, event: Intercept)

  /** A SiteAdapter with the TurnParser it creates: parser states P, finalized turns T. */
  datatype Adapter<!P, !T> = Adapter(
    matchesHost: string -> bool,
    matchesRequest: (string, string) -> bool,
    createParser: int -> P,
    onRequest: (P, string, string, Option<string>) -> P,
    onChunk: (P, string) -> Outcome<P>,
    onDone: P -> Outcome<P>,
    getTurn: P -> Made<T>)

  // ------------------------------------------------------------- keys

  function KeyOf(tabId: Option<int>, reqId: int): string {
    Show(if tabId.Some? then tabId.value else -1) + ":" + Show(reqId)
  }

  function CallKey(c: Call): string {
    KeyOf(c.tabId, c.event.reqId)
  }

  lemma {:induction false} ShowNatInjective(m: nat, n: nat)
    requires ShowNat(m) == ShowNat(n)
    ensures m == n
    decreases m + n
  {
    var a, b := ShowNat(m), ShowNat(n);
    assert a[|a| - 1] == Digit(m % 10) && b[|b| - 1] == Digit(n % 10);
    if m >= 10 && n >= 10 {
      assert a[..|a| - 1] == ShowNat(m / 10) && b[..|b| - 1] == ShowNat(n / 10);
      ShowNatInjective(m / 10, n / 10);
    }
  }

  lemma {:induction false} ShowNatIsDigits(n: nat)
    ensures forall c | c in ShowNat(n) :: '0' <= c <= '9'
  {
    if n >= 10 { ShowNatIsDigits(n / 10); }
  }

  lemma ShowInjective(m: int, n: int)
    requires Show(m) == Show(n)
    ensures m == n
  {
    var a, b := if m < 0 then -m else m, if n < 0 then -n else n;
    ShowNatIsDigits(a);
    ShowNatIsDigits(b);
    assert ShowNat(a)[0] in ShowNat(a) && ShowNat(b)[0] in ShowNat(b);
    assert (m < 0) == (Show(m)[0] == '-') && (n < 0) == (Show(n)[0] == '-');
    if m < 0 {
      assert Show(m)[1..] == ShowNat(a) && Show(n)[1..] == ShowNat(b);
    }
    ShowNatInjective(a, b);
  }

  lemma ShowHasNoColon(n: int)
    ensures ':' !in Show(n)
  {
    ShowNatIsDigits(if n < 0 then -n else n);
  }

  /** Keys coincide exactly for the same request of the same tab; a sender without a tab
      counts as tab -1. */
  lemma KeysDistinguish(tab: Option<int>, req: int, tab': Option<int>, req': int)
    ensures KeyOf(tab, req) == KeyOf(tab', req')
       <==> (if tab.Some? then tab.value else -1) == (if tab'.Some? then tab'.value else -1) && req == req'
  {
    var t, t' := if tab.Some? then tab.value else -1, if tab'.Some? then tab'.value else -1;
    if KeyOf(tab, req) == KeyOf(tab', req') {
      ShowHasNoColon(t);
      ShowHasNoColon(t');
      SplitAtFirst(Show(t), Show(req), ':');
      SplitAtFirst(Show(t'), Show(req'), ':');
      ShowHasNoColon(req);
      ShowHasNoColon(req');
      SplitWithout(Show(req), ':');
      SplitWithout(Show(req'), ':');
      assert Split(KeyOf(tab, req), ':') == [Show(t), Show(req)];
      assert Split(KeyOf(tab', req'), ':') == [Show(t'), Show(req')];
      ShowInjective(t, t');
      ShowInjective(req, req');
    }
  }

  // ---------------------------------------------- one call, on values

  datatype Live<!P, !T> = Live(adapter: Adapter<P, T>, state: P)

  /** The first registered adapter for a host. */
  function AdapterForHost<P, T>(registry: seq<Adapter<P, T>>, host: string): Option<Adapter<P, T>> {
    if registry == [] then None
    else if registry[0].matchesHost(host) then Some(registry[0])
    else AdapterForHost(registry[1..], host)
  }

  /** The parser a call opens, if it is a request some adapter accepts. */
  function Opens<P, T>(registry: seq<Adapter<P, T>>, c: Call): Option<Live<P, T>> {
    if !c.event.Request? then None
    else
      match AdapterForHost(registry, c.host)
      case None => None
      case Some(a) =>
        if !a.matchesRequest(c.event.url, c.event.httpMethod) then None
        else Some(Live(a, a.onRequest(a.createParser(c.event.reqId), c.event.url, c.event.httpMethod, c.event.body)))
  }

  /** The parser a request starts. */
  function Opened<P, T>(a: Adapter<P, T>, r: Intercept): Live<P, T>
    requires r.Request?
  {
    Live(a, a.onRequest(a.createParser(r.reqId), r.url, r.httpMethod, r.body))
  }

  predicate Closes(c: Call) {
    c.event.Finished? || c.event.Failed?
  }

  /** Closing a stream throws: at its end, or in reading the turn off it. */
  predicate ClosingThrows<P, T>(live: Live<P, T>) {
    live.adapter.onDone(live.state).threw || live.adapter.getTurn(live.adapter.onDone(live.state).state).Threw?
  }

  function ClosedState<P, T>(live: Live<P, T>): P {
    live.adapter.onDone(live.state).state
  }

  function ClosingTurn<P, T>(live: Live<P, T>): Option<T> {
    if ClosingThrows(live) then None else live.adapter.getTurn(ClosedState(live)).value
  }

  /** What a call does to the parser under its own key; an exception keeps it. */
  function StepOne<P, T>(registry: seq<Adapter<P, T>>, live: Option<Live<P, T>>, c: Call): Option<Live<P, T>> {
    if Opens(registry, c).Some? then Opens(registry, c)
    else if live.None? then None
    else if Closes(c) then
      if ClosingThrows(live.value) then Some(live.value.(state := ClosedState(live.value))) else None
    else if c.event.Chunk? then
      Some(live.value.(state := live.value.adapter.onChunk(live.value.state, c.event.chunk).state))
    else live
  }

  function TurnOne<P, T>(live: Option<Live<P, T>>, c: Call): Option<T> {
    if live.Some? && Closes(c) then ClosingTurn(live.value) else None
  }

  predicate ThrowsOne<P, T>(live: Option<Live<P, T>>, c: Call) {
    && live.Some?
    && ((Closes(c) && ClosingThrows(live.value))
        || (c.event.Chunk? && live.value.adapter.onChunk(live.value.state, c.event.chunk).threw))
  }

  function Lookup<V>(m: map<string, V>, k: string): Option<V> {
    if k in m then Some(m[k]) else None
  }

  function Store<V>(m: map<string, V>, k: string, v: Option<V>): map<string, V> {
    if v.Some? then m[k := v.value] else m - {k}
  }

  // ------------------------------------------------------ the assembler

  /** A parser object; its state is rewritten in place by each chunk. */
  class Parser<P> {
    var state: P

    constructor (state: P)
      ensures this.state == state
    {
      this.state := state;
    }
  }

  datatype Entry<!P, !T> = Entry(adapter: Adapter<P, T>, parser: Parser<P>)

  class Assembler<P, T> {
    const registry: seq<Adapter<P, T>>
    var entries: map<string, Entry<P, T>>

    ghost function Parsers(): set<Parser<P>>
      reads this
    {
      set k | k in entries :: entries[k].parser
    }

    /** No two streams share a parser object. */
    ghost predicate Valid()
      reads this
    {
      forall k, l | k in entries && l in entries && k != l :: entries[k].parser != entries[l].parser
    }

    ghost function View(): map<string, Live<P, T>>
      reads this, Parsers()
    {
      map k | k in entries :: Live(entries[k].adapter, entries[k].parser.state)
    }

    constructor (registry: seq<Adapter<P, T>>)
      ensures Valid() && View() == map[] && this.registry == registry
    {
      this.registry := registry;
      entries := map[];
    }

    method Handle(host: string, tabId: Option<int>, event: Intercept) returns (turn: Option<T>, threw: bool)
      requires Valid()
      modifies this, Parsers()
      ensures Valid() && fresh(Parsers() - old(Parsers()))
      ensures var c, k := Call(host, tabId, event), KeyOf(tabId, event.reqId);
              && turn == TurnOne(Lookup(old(View()), k), c) && threw == ThrowsOne(Lookup(old(View()), k), c)
              && View() == Store(old(View()), k, StepOne(registry, Lookup(old(View()), k), c))
    {
      hide KeyOf;
      var k := KeyOf(tabId, event.reqId);
      if event.Request? {
        HandleRequest(k, Call(host, tabId, event));
        return None, false;
      }
      if k !in entries {
        assert View() == Store(old(View()), k, None);
        return None, false;
      }
      if event.Chunk? {
        threw := HandleChunk(k, event.chunk);
        return None, threw;
      }
      turn, threw := HandleEnd(k);
    }

    method HandleChunk(k: string, chunk: string) returns (threw: bool)
      requires Valid() && k in entries
      modifies Parsers()
      ensures var entry, state := entries[k], old(entries[k].parser.state);
              && threw == entry.adapter.onChunk(state, chunk).threw
              && View() == old(View())[k := Live(entry.adapter, entry.adapter.onChunk(state, chunk).state)]
    {
      var entry := entries[k];
      var o := entry.adapter.onChunk(entry.parser.state, chunk);
      entry.parser.state := o.state;
      assert View() == old(View())[k := Live(entry.adapter, o.state)];
      return o.threw;
    }

    /** onDone, getTurn, and then the entry is deleted; an exception in either leaves it there. */
    method HandleEnd(k: string) returns (turn: Option<T>, threw: bool)
      requires Valid() && k in entries
      modifies `entries, Parsers()
      ensures Valid() && Parsers() <= old(Parsers())
      ensures var live := old(View())[k];
              && threw == ClosingThrows(live) && turn == ClosingTurn(live)
              && View() == if threw then old(View())[k := live.(state := ClosedState(live))] else old(View()) - {k}
    {
      var entry := entries[k];
      var o := entry.adapter.onDone(entry.parser.state);
      entry.parser.state := o.state;
      assert View() == old(View())[k := Live(entry.adapter, o.state)];
      if o.threw {
        return None, true;
      }
      var made := entry.adapter.getTurn(entry.parser.state);
      if made.Threw? {
        return None, true;
      }
      entries := entries - {k};
      assert View() == old(View()) - {k};
      return made.value, false;
    }

    /** A request opens a fresh parser under its key, in place of any other, or does nothing. */
    method HandleRequest(k: string, c: Call)
      requires Valid() && c.event.Request?
      modifies this
      ensures Valid() && fresh(Parsers() - old(Parsers()))
      ensures View() == Store(old(View()), k, StepOne(registry, Lookup(old(View()), k), c))
    {
      var adapter := AdapterForHost(registry, c.host);
      if adapter.None? || !adapter.value.matchesRequest(c.event.url, c.event.httpMethod) {
        assert View() == Store(old(View()), k, Lookup(old(View()), k));
        return;
      }
      var a := adapter.value;
      var parser := new Parser(a.createParser(c.event.reqId));
      parser.state := a.onRequest(parser.state, c.event.url, c.event.httpMethod, c.event.body);
      entries := entries[k := Entry(a, parser)];
      assert View() == old(View())[k := Live(a, parser.state)];
    }

    method Active() returns (n: nat)
      ensures n == |View()|
    {
      n := |entries|;
      assert View().Keys == entries.Keys;
      assert |View().Keys| == |entries.Keys|;
    }
  }

  // ------------------------------------------------------ whole runs

  /** The parsers after a run of calls, starting from none. */
  function After<P, T>(registry: seq<Adapter<P, T>>, calls: seq<Call>): map<string, Live<P, T>> {
    if calls == [] then map[]
    else
      var m, c := After(registry, calls[..|calls| - 1]), calls[|calls| - 1];
      Store(m, CallKey(c), StepOne(registry, Lookup(m, CallKey(c)), c))
  }

  /** The turns a run emits, each with the key of its stream. */
  function Turns<P, T>(registry: seq<Adapter<P, T>>, calls: seq<Call>): seq<(string, T)> {
    if calls == [] then []
    else
      var front, c := calls[..|calls| - 1], calls[|calls| - 1];
      var turn := TurnOne(Lookup(After(registry, front), CallKey(c)), c);
      Turns(registry, front) + if turn.Some? then [(CallKey(c), turn.value)] else []
  }

  function OfKey(calls: seq<Call>, k: string): seq<Call> {
    if calls == [] then []
    else OfKey(calls[..|calls| - 1], k) + if CallKey(calls[|calls| - 1]) == k then [calls[|calls| - 1]] else []
  }

  function TurnsOfKey<T>(turns: seq<(string, T)>, k: string): seq<T> {
    if turns == [] then []
    else TurnsOfKey(turns[..|turns| - 1], k) + if turns[|turns| - 1].0 == k then [turns[|turns| - 1].1] else []
  }

  lemma TurnsOfKeySnoc<T>(turns: seq<(string, T)>, turn: (string, T), k: string)
    ensures TurnsOfKey(turns + [turn], k) == TurnsOfKey(turns, k) + if turn.0 == k then [turn.1] else []
  {
    assert (turns + [turn])[..|turns|] == turns;
  }

  /** One call leaves every other key alone and treats its own as if it were the only one. */
  lemma OneCall<P, T>(registry: seq<Adapter<P, T>>, front: seq<Call>, c: Call, k: string)
    ensures var m, m' := After(registry, front), After(registry, front + [c]);
            Lookup(m', k) == if k == CallKey(c) then StepOne(registry, Lookup(m, k), c) else Lookup(m, k)
  {
    assert (front + [c])[..|front|] == front;
  }

  lemma TurnsSnoc<P, T>(registry: seq<Adapter<P, T>>, front: seq<Call>, c: Call)
    ensures var turn := TurnOne(Lookup(After(registry, front), CallKey(c)), c);
            Turns(registry, front + [c]) ==
            if turn.Some? then Turns(registry, front) + [(CallKey(c), turn.value)] else Turns(registry, front)
  {
    assert (front + [c])[..|front|] == front;
  }

  lemma OfKeySnoc(front: seq<Call>, c: Call, k: string)
    ensures OfKey(front + [c], k) == if CallKey(c) == k then OfKey(front, k) + [c] else OfKey(front, k)
  {
    hide CallKey;
    assert (front + [c])[..|front|] == front;
  }

  function Emitted<T>(turn: Option<T>): seq<T> {
    if turn.Some? then [turn.value] else []
  }

  lemma TurnsOfKeyGrow<P, T>(registry: seq<Adapter<P, T>>, front: seq<Call>, c: Call, k: string)
    ensures var turn := TurnOne(Lookup(After(registry, front), k), c);
            TurnsOfKey(Turns(registry, front + [c]), k) ==
            TurnsOfKey(Turns(registry, front), k) + if CallKey(c) == k then Emitted(turn) else []
  {
    hide TurnOne, CallKey, After, Turns, TurnsOfKey;
    TurnsSnoc(registry, front, c);
    var turn := TurnOne(Lookup(After(registry, front), CallKey(c)), c);
    if turn.Some? {
      TurnsOfKeySnoc(Turns(registry, front), (CallKey(c), turn.value), k);
    }
  }

  /** The turns and the parser of key `k` after `calls` are those after `own`. */
  ghost predicate AsIfAlone<P, T>(registry: seq<Adapter<P, T>>, calls: seq<Call>, own: seq<Call>, k: string) {
    && TurnsOfKey(Turns(registry, calls), k) == TurnsOfKey(Turns(registry, own), k)
    && Lookup(After(registry, calls), k) == Lookup(After(registry, own), k)
  }

  lemma AloneStep<P, T>(registry: seq<Adapter<P, T>>, front: seq<Call>, own: seq<Call>, c: Call, k: string)
    requires AsIfAlone(registry, front, own, k)
    ensures AsIfAlone(registry, front + [c], if CallKey(c) == k then own + [c] else own, k)
  {
    hide TurnOne, StepOne, CallKey, After, Turns, TurnsOfKey, Lookup, Emitted;
    OneCall(registry, front, c, k);
    TurnsOfKeyGrow(registry, front, c, k);
    if CallKey(c) == k {
      OneCall(registry, own, c, k);
      TurnsOfKeyGrow(registry, own, c, k);
    }
  }

  /** However the streams interleave, the turns of one key and its parser are those of that
      key's calls run on their own. */
  lemma {:induction false} StreamsAreIndependent<P, T>(registry: seq<Adapter<P, T>>, calls: seq<Call>, k: string)
    ensures AsIfAlone(registry, calls, OfKey(calls, k), k)
    decreases |calls|
  {
    if calls == [] {
      assert OfKey(calls, k) == calls;
    } else {
      hide *;
      var front, c := calls[..|calls| - 1], calls[|calls| - 1];
      assert front + [c] == calls;
      StreamsAreIndependent(registry, front, k);
      var own := OfKey(front, k);
      OfKeySnoc(front, c, k);
      if CallKey(c) == k {
        AloneStep(registry, front, own, c, k);
        assert AsIfAlone(registry, calls, own + [c], k);
      } else {
        AloneStep(registry, front, own, c, k);
        assert AsIfAlone(registry, calls, own, k);
      }
    }
  }

  /** A request that the first adapter for its host takes. */
  ghost predicate Accepted<P, T>(registry: seq<Adapter<P, T>>, c: Call) {
    c.event.Request? && exists i :: Takes(registry, c, i)
  }

  /** The i-th adapter is the first for the host of the request, and takes it. */
  predicate Takes<P, T>(registry: seq<Adapter<P, T>>, c: Call, i: nat)
    requires c.event.Request?
  {
    && i < |registry| && registry[i].matchesHost(c.host)
    && (forall j | 0 <= j < i :: !registry[j].matchesHost(c.host))
    && registry[i].matchesRequest(c.event.url, c.event.httpMethod)
  }

  lemma {:induction false} FirstForHost<P, T>(registry: seq<Adapter<P, T>>, host: string)
    ensures var a := AdapterForHost(registry, host);
            if a.None? then forall j | 0 <= j < |registry| :: !registry[j].matchesHost(host)
            else exists i: nat :: i < |registry| && registry[i] == a.value && registry[i].matchesHost(host)
                                  && forall j | 0 <= j < i :: !registry[j].matchesHost(host)
  {
    if registry != [] && !registry[0].matchesHost(host) {
      var more := registry[1..];
      FirstForHost(more, host);
      assert forall j | 1 <= j < |registry| :: registry[j] == more[j - 1];
      if AdapterForHost(more, host).Some? {
        var i: nat :| i < |more| && more[i] == AdapterForHost(more, host).value && more[i].matchesHost(host)
                      && forall j | 0 <= j < i :: !more[j].matchesHost(host);
        assert registry[i + 1] == more[i];
      }
    }
  }

  /** What a call opens is a new parser of the first adapter for its host, if that takes the request. */
  lemma OpensIs<P, T>(registry: seq<Adapter<P, T>>, c: Call)
    ensures Opens(registry, c).Some? <==> Accepted(registry, c)
    ensures c.event.Request? ==> forall i: nat | Takes(registry, c, i) ::
              Opens(registry, c) == Some(Opened(registry[i], c.event))
  {
    if c.event.Request? {
      FirstForHost(registry, c.host);
      var a := AdapterForHost(registry, c.host);
      if a.Some? {
        var i: nat :| i < |registry| && registry[i] == a.value && registry[i].matchesHost(c.host)
                      && forall j | 0 <= j < i :: !registry[j].matchesHost(c.host);
        assert Takes(registry, c, i) <==> a.value.matchesRequest(c.event.url, c.event.httpMethod);
        forall j: nat | Takes(registry, c, j) ensures j == i {
          assert !(j < i) && !(i < j);
        }
      }
    }
  }

  /** An accepted request under `k` with no later `done` or `error` of `k`. */
  ghost predicate Open<P, T>(registry: seq<Adapter<P, T>>, calls: seq<Call>, k: string) {
    exists i :: 0 <= i < |calls| && CallKey(calls[i]) == k && Accepted(registry, calls[i])
                && forall j | i < j < |calls| ::
                     CallKey(calls[j]) == k ==> !calls[j].event.Finished? && !calls[j].event.Failed?
  }

  lemma OpenSnoc<P, T>(registry: seq<Adapter<P, T>>, front: seq<Call>, c: Call, k: string)
    ensures Open(registry, front + [c], k)
       <==> if CallKey(c) == k then Opens(registry, c).Some? || (!Closes(c) && Open(registry, front, k))
            else Open(registry, front, k)
  {
    OpensIs(registry, c);
    hide Opens, CallKey, Accepted;
    var calls := front + [c];
    assert calls[|front|] == c;
    if i :| 0 <= i < |front| && CallKey(front[i]) == k && Accepted(registry, front[i])
            && forall j | i < j < |front| ::
                 CallKey(front[j]) == k ==> !front[j].event.Finished? && !front[j].event.Failed?
    {
      assert calls[i] == front[i];
    }
    if i :| 0 <= i < |calls| && CallKey(calls[i]) == k && Accepted(registry, calls[i])
            && forall j | i < j < |calls| ::
                 CallKey(calls[j]) == k ==> !calls[j].event.Finished? && !calls[j].event.Failed?
    {
      if i < |front| {
        assert front[i] == calls[i];
        assert forall j | i < j < |front| :: front[j] == calls[j];
      }
    }
  }

  /** The call at `j` is a `done` or an `error` of the stream under its key, and closing that throws. */
  ghost predicate EndThrows<P, T>(registry: seq<Adapter<P, T>>, calls: seq<Call>, j: nat) {
    && j < |calls| && (calls[j].event.Finished? || calls[j].event.Failed?)
    && var live := Lookup(After(registry, calls[..j]), CallKey(calls[j])); live.Some? && ClosingThrows(live.value)
  }

  /** The last call to end the stream under `k` threw. */
  ghost predicate Stuck<P, T>(registry: seq<Adapter<P, T>>, calls: seq<Call>, k: string) {
    exists j: nat :: j < |calls| && CallKey(calls[j]) == k && EndThrows(registry, calls, j)
                     && forall l | j < l < |calls| ::
                          CallKey(calls[l]) == k ==> !calls[l].event.Finished? && !calls[l].event.Failed?
  }

  lemma EndThrowsSnoc<P, T>(registry: seq<Adapter<P, T>>, front: seq<Call>, c: Call, j: nat)
    requires j <= |front|
    ensures EndThrows(registry, front + [c], j)
       <==> if j < |front| then EndThrows(registry, front, j)
            else Closes(c) && ThrowsOne(Lookup(After(registry, front), CallKey(c)), c)
  {
    hide CallKey, After, ClosingThrows, Lookup;
    assert (front + [c])[..j] == front[..j] && front[..|front|] == front;
  }

  lemma StuckSnoc<P, T>(registry: seq<Adapter<P, T>>, front: seq<Call>, c: Call, k: string)
    ensures Stuck(registry, front + [c], k)
       <==> if CallKey(c) != k || !Closes(c) then Stuck(registry, front, k)
            else ThrowsOne(Lookup(After(registry, front), k), c)
  {
    hide CallKey, EndThrows, ThrowsOne, After, Lookup;
    var calls, n := front + [c], |front|;
    assert calls[n] == c;
    forall j: nat | j <= n
      ensures EndThrows(registry, calls, j)
         <==> if j < n then EndThrows(registry, front, j)
              else Closes(c) && ThrowsOne(Lookup(After(registry, front), CallKey(c)), c)
    {
      EndThrowsSnoc(registry, front, c, j);
    }
    forall j: nat | j < n ensures calls[j] == front[j] { }
    if Stuck(registry, front, k) && (CallKey(c) != k || !Closes(c)) {
      var j: nat :| j < n && CallKey(front[j]) == k && EndThrows(registry, front, j)
                    && forall l | j < l < n :: CallKey(front[l]) == k ==> !Closes(front[l]);
      assert CallKey(calls[j]) == k && EndThrows(registry, calls, j);
    }
    if CallKey(c) == k && Closes(c) && ThrowsOne(Lookup(After(registry, front), k), c) {
      assert EndThrows(registry, calls, n);
    }
    if Stuck(registry, calls, k) {
      var j: nat :| j < |calls| && CallKey(calls[j]) == k && EndThrows(registry, calls, j)
                    && forall l | j < l < |calls| :: CallKey(calls[l]) == k ==> !Closes(calls[l]);
      if j < n {
        assert forall l | j < l < n :: front[l] == calls[l];
        assert EndThrows(registry, front, j);
      }
    }
  }

  lemma HeldStep<P, T>(registry: seq<Adapter<P, T>>, front: seq<Call>, c: Call, k: string)
    ensures var m, m' := After(registry, front), After(registry, front + [c]);
            k in m' <==> if CallKey(c) != k then k in m
                         else Opens(registry, c).Some? || (k in m && (!Closes(c) || ThrowsOne(Lookup(m, k), c)))
  {
    hide CallKey, Opens, After, ClosingThrows, ClosedState;
    OneCall(registry, front, c, k);
  }

  /** An `error` ends a stream as a `done` does: the same turn comes out, and the same parsers stay. */
  lemma ErrorEndsLikeDone<P, T>(registry: seq<Adapter<P, T>>, front: seq<Call>, host: string, tab: Option<int>,
                                reqId: int)
    ensures var failed := front + [Call(host, tab, Failed(reqId))];
            var finished := front + [Call(host, tab, Finished(reqId))];
            && After(registry, failed) == After(registry, finished)
            && Turns(registry, failed) == Turns(registry, finished)
  {
    hide ClosingThrows, ClosingTurn, ClosedState, KeyOf;
    var c, d := Call(host, tab, Failed(reqId)), Call(host, tab, Finished(reqId));
    assert (front + [c])[..|front|] == front && (front + [d])[..|front|] == front;
  }

  /** An accepted request starts its key afresh, whatever the key held: from there on its parser and
      its turns are those of a run that begins with the request. */
  lemma {:induction false} RequestStartsAfresh<P, T>(registry: seq<Adapter<P, T>>, front: seq<Call>, c: Call,
                                                     rest: seq<Call>, k: string, i: nat)
    requires CallKey(c) == k && c.event.Request? && Takes(registry, c, i)
    ensures Lookup(After(registry, front + [c]), k) == Some(Opened(registry[i], c.event))
    ensures Lookup(After(registry, front + [c] + rest), k) == Lookup(After(registry, [c] + rest), k)
    ensures TurnsOfKey(Turns(registry, front + [c] + rest), k)
         == TurnsOfKey(Turns(registry, front), k) + TurnsOfKey(Turns(registry, [c] + rest), k)
    decreases |rest|
  {
    hide *;
    JustOpened(registry, front, c, k, i);
    JustOpened(registry, [], c, k, i);
    assert [] + [c] == [c];
    if rest == [] {
      assert front + [c] + rest == front + [c] && [c] + rest == [c];
      NoTurns(registry, k);
    } else {
      var more, d := rest[..|rest| - 1], rest[|rest| - 1];
      RequestStartsAfresh(registry, front, c, more, k, i);
      assert more + [d] == rest;
      Assoc(front + [c], more, [d]);
      Assoc([c], more, [d]);
      OneCall(registry, front + [c] + more, d, k);
      OneCall(registry, [c] + more, d, k);
      TurnsOfKeyGrow(registry, front + [c] + more, d, k);
      TurnsOfKeyGrow(registry, [c] + more, d, k);
    }
  }

  lemma JustOpened<P, T>(registry: seq<Adapter<P, T>>, front: seq<Call>, c: Call, k: string, i: nat)
    requires CallKey(c) == k && c.event.Request? && Takes(registry, c, i)
    ensures i < |registry|
    ensures Lookup(After(registry, front + [c]), k) == Some(Opened(registry[i], c.event))
    ensures TurnsOfKey(Turns(registry, front + [c]), k) == TurnsOfKey(Turns(registry, front), k)
  {
    OpensIs(registry, c);
    hide After, Turns, TurnsOfKey, Opens, Opened, CallKey, Lookup;
    OneCall(registry, front, c, k);
    TurnsOfKeyGrow(registry, front, c, k);
  }

  lemma NoTurns<P, T>(registry: seq<Adapter<P, T>>, k: string)
    ensures TurnsOfKey(Turns(registry, []), k) == []
  {
  }

  /** The keys held are exactly those with an accepted request not yet done or failed, and those
      whose last end threw: an exception skips the deletion. */
  lemma {:induction false} HeldExactlyWhileOpen<P, T>(registry: seq<Adapter<P, T>>, calls: seq<Call>, k: string)
    ensures k in After(registry, calls) <==> Open(registry, calls, k) || Stuck(registry, calls, k)
    decreases |calls|
  {
    if calls != [] {
      hide *;
      var front, c := calls[..|calls| - 1], calls[|calls| - 1];
      assert calls == front + [c];
      HeldExactlyWhileOpen(registry, front, k);
      OpenSnoc(registry, front, c, k);
      StuckSnoc(registry, front, c, k);
      HeldStep(registry, front, c, k);
      ThrowsOnlyHeld(registry, front, c, k);
    }
  }

  lemma ThrowsOnlyHeld<P, T>(registry: seq<Adapter<P, T>>, front: seq<Call>, c: Call, k: string)
    ensures ThrowsOne(Lookup(After(registry, front), k), c) ==> k in After(registry, front)
    ensures Opens(registry, c).Some? ==> !Closes(c)
  {
    hide After;
  }

  function KeysOf(calls: seq<Call>): set<string> {
    set i | 0 <= i < |calls| :: CallKey(calls[i])
  }

  ghost function OpenKeys<P, T>(registry: seq<Adapter<P, T>>, calls: seq<Call>): set<string> {
    set k | k in KeysOf(calls) && Open(registry, calls, k)
  }

  /** Keys held for nothing: their stream has ended, and threw. */
  ghost function StuckKeys<P, T>(registry: seq<Adapter<P, T>>, calls: seq<Call>): set<string> {
    set k | k in KeysOf(calls) && Stuck(registry, calls, k) && !Open(registry, calls, k)
  }

  /** `active` counts the streams in flight, and with them every one whose end threw. */
  lemma ActiveCountsOpenStreams<P, T>(registry: seq<Adapter<P, T>>, calls: seq<Call>)
    ensures |After(registry, calls)| == |OpenKeys(registry, calls)| + |StuckKeys(registry, calls)|
    ensures (forall j: nat | j < |calls| :: !EndThrows(registry, calls, j)) ==> StuckKeys(registry, calls) == {}
  {
    hide EndThrows;
    var open, stuck := OpenKeys(registry, calls), StuckKeys(registry, calls);
    forall k ensures k in After(registry, calls).Keys <==> k in open + stuck {
      HeldExactlyWhileOpen(registry, calls, k);
      KnownKey(registry, calls, k);
    }
    assert After(registry, calls).Keys == open + stuck;
    assert open !! stuck;
  }

  lemma KnownKey<P, T>(registry: seq<Adapter<P, T>>, calls: seq<Call>, k: string)
    ensures Open(registry, calls, k) || Stuck(registry, calls, k) ==> k in KeysOf(calls)
  {
  }
}
