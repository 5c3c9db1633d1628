// beacon-sandbox/check/invariants.go: the per-session checks of a runtime log's timestamps.
module Invariants {
  import opened Text

  /** One log line: whether it parsed at all, its timestamp in nanoseconds after 1970 if that
      parsed, whether the timestamp has a fraction, its session, and its sequence or 0. */
  datatype Entry = Entry(parsed: bool, instant: Option<int>, fraction: bool, session: string, sequence: nat)

  const TWO_64 := 0x1_0000_0000_0000_0000
  const TWO_63 := 0x8000_0000_0000_0000

  /** The events a check looks at. */
  predicate Timed(e: Entry) {
    e.parsed && e.instant.Some?
  }

  predicate Ascending(at: seq<nat>) {
    forall i, j | 0 <= i < j < |at| :: at[i] < at[j]
  }

  /** `at` lists in order the positions below `n` where `p` holds. */
  ghost predicate Lists(at: seq<nat>, n: nat, p: nat -> bool) {
    Ascending(at) && forall i: nat :: i in at <==> i < n && p(i)
  }

  lemma ListsGrows(at: seq<nat>, n: nat, p: nat -> bool)
    requires Lists(at, n, p)
    ensures Lists(if p(n) then at + [n] else at, n + 1, p)
  {
    var more := at + [n];
    assert forall i: nat :: i in more <==> i in at || i == n;
    forall i, j | 0 <= i < j < |more| ensures more[i] < more[j] {
      assert at[i] in at;
    }
  }

  /** There is only one such list. */
  lemma {:induction false} ListsUnique(a: seq<nat>, b: seq<nat>, n: nat, p: nat -> bool)
    requires Lists(a, n, p) && Lists(b, n, p)
    ensures a == b
  {
    if n == 0 {
      if |a| > 0 { InList(a, 0); }
      if |b| > 0 { InList(b, 0); }
    } else if p(n - 1) {
      LastOf(a, n, p);
      LastOf(b, n, p);
      ListsUnique(a[..|a| - 1], b[..|b| - 1], n - 1, p);
      assert a == a[..|a| - 1] + [n - 1] && b == b[..|b| - 1] + [n - 1];
    } else {
      ListsUnique(a, b, n - 1, p);
    }
  }

  lemma InList(at: seq<nat>, k: nat)
    requires k < |at|
    ensures at[k] in at
  {
  }

  lemma LastOf(at: seq<nat>, n: nat, p: nat -> bool)
    requires n > 0 && Lists(at, n, p) && p(n - 1)
    ensures at != [] && at[|at| - 1] == n - 1 && Lists(at[..|at| - 1], n - 1, p)
  {
    assert n - 1 in at;
    var k :| 0 <= k < |at| && at[k] == n - 1;
    InList(at, |at| - 1);
    assert k == |at| - 1;
    var front := at[..|at| - 1];
    forall i: nat ensures i in front <==> i < n - 1 && p(i) {
      if i in front {
        var m :| 0 <= m < |front| && front[m] == i;
        assert at[m] in at && at[m] < at[|at| - 1];
      }
      if i < n - 1 && p(i) {
        var m :| 0 <= m < |at| && at[m] == i;
        assert front[m] == i;
      }
    }
  }

  // -------------------------------------------------- checkTimestamps

  /** Event `i` comes more than five seconds before an earlier one of its session. */
  predicate Regresses(events: seq<Entry>, i: nat) {
    && i < |events| && Timed(events[i])
    && exists j :: 0 <= j < i && Timed(events[j]) && events[j].session == events[i].session
                   && events[i].instant.value < events[j].instant.value - 5 * SECOND
  }

  predicate Unparseable(events: seq<Entry>, i: nat) {
    i < |events| && events[i].parsed && events[i].instant.None?
  }

  function UnparseableAt(events: seq<Entry>): nat -> bool { (i: nat) => Unparseable(events, i) }
  function RegressesAt(events: seq<Entry>): nat -> bool { (i: nat) => Regresses(events, i) }

  /** `latest` holds for each session met before `n` the latest instant of its events. */
  ghost predicate HoldsLatest(latest: map<string, int>, events: seq<Entry>, n: nat)
    requires n <= |events|
  {
    && (forall j | 0 <= j < n && Timed(events[j]) ::
          events[j].session in latest && events[j].instant.value <= latest[events[j].session])
    && (forall s | s in latest ::
          exists j :: 0 <= j < n && Timed(events[j]) && events[j].session == s && events[j].instant.value == latest[s])
  }

  lemma HoldsLatestMore(latest: map<string, int>, events: seq<Entry>, n: nat, latest': map<string, int>)
    requires n < |events| && HoldsLatest(latest, events, n)
    requires var e := events[n];
             latest' == if Timed(e) && (e.session in latest ==> e.instant.value > latest[e.session])
                        then latest[e.session := e.instant.value] else latest
    ensures HoldsLatest(latest', events, n + 1)
  {
    forall s | s in latest'
      ensures exists j :: 0 <= j < n + 1 && Timed(events[j])
                          && events[j].session == s && events[j].instant.value == latest'[s]
    {
      if s in latest && latest'[s] == latest[s] {
        var j :| 0 <= j < n && Timed(events[j]) && events[j].session == s && events[j].instant.value == latest[s];
        assert Timed(events[j]);
      } else {
        assert Timed(events[n]);
      }
    }
  }

  lemma RegressesBelowLatest(latest: map<string, int>, events: seq<Entry>, n: nat)
    requires n < |events| && HoldsLatest(latest, events, n) && Timed(events[n])
    ensures var e := events[n];
            Regresses(events, n) <==> e.session in latest && e.instant.value < latest[e.session] - 5 * SECOND
  {
  }

  /** What the check lists: each line whose timestamp does not parse, and each event that lies more
      than five seconds below the latest earlier one of its session. */
  method CheckTimestamps(events: seq<Entry>) returns (unparseable: seq<nat>, regressions: seq<nat>)
    ensures Lists(unparseable, |events|, UnparseableAt(events))
    ensures Lists(regressions, |events|, RegressesAt(events))
  {
    hide Regresses, HoldsLatest, Lists;
    ghost var bad, back := UnparseableAt(events), RegressesAt(events);
    unparseable, regressions := [], [];
    var latestBySession: map<string, int> := map[];
    NothingListed(events, bad, back);
    for n := 0 to |events|
      invariant Lists(unparseable, n, bad) && Lists(regressions, n, back)
      invariant HoldsLatest(latestBySession, events, n)
    {
      var e := events[n];
      ListsGrows(unparseable, n, bad);
      ListsGrows(regressions, n, back);
      ghost var before := latestBySession;
      if !e.parsed {
        NotTimed(events, n);
        HoldsLatestMore(before, events, n, latestBySession);
        continue;
      }
      if e.instant.None? {
        NotTimed(events, n);
        HoldsLatestMore(before, events, n, latestBySession);
        unparseable := unparseable + [n];
        continue;
      }
      RegressesBelowLatest(latestBySession, events, n);
      var ts, seen := e.instant.value, e.session in latestBySession;
      if seen && ts < latestBySession[e.session] - 5 * SECOND {
        regressions := regressions + [n];
      } else if !seen || ts > latestBySession[e.session] {
        latestBySession := latestBySession[e.session := ts];
      }
      HoldsLatestMore(before, events, n, latestBySession);
    }
  }

  lemma NothingListed(events: seq<Entry>, p: nat -> bool, q: nat -> bool)
    ensures Lists([], 0, p) && Lists([], 0, q) && HoldsLatest(map[], events, 0)
  {
  }

  lemma NotTimed(events: seq<Entry>, n: nat)
    requires n < |events| && !Timed(events[n])
    ensures !Regresses(events, n)
  {
  }

  // ------------------------------------------------------ checkOrdering

  /** Time.UnixNano in 64 bits: instants outside 1678 to 2262 wrap round. */
  function UnixNano(instant: int): int {
    (instant + TWO_63) % TWO_64 - TWO_63
  }

  /** An event with nothing but its timestamp to order it by. */
  predicate Unsequenced(e: Entry) {
    Timed(e) && e.sequence == 0
  }

  predicate Collides(events: seq<Entry>, i: nat) {
    && i < |events| && Unsequenced(events[i])
    && exists j :: 0 <= j < i && Unsequenced(events[j]) && events[j].session == events[i].session
                   && UnixNano(events[j].instant.value) == UnixNano(events[i].instant.value)
  }

  function CollidesAt(events: seq<Entry>): nat -> bool { (i: nat) => Collides(events, i) }

  function IsTimed(): Entry -> bool { e => Timed(e) }
  function IsFine(): Entry -> bool { e => Timed(e) && e.fraction }

  function Counted(events: seq<Entry>, n: nat, p: Entry -> bool): nat
    requires n <= |events|
  {
    if n == 0 then 0 else Counted(events, n - 1, p) + if p(events[n - 1]) then 1 else 0
  }

  /** `seen` maps each session and instant met before `n` to the first event that had them. */
  ghost predicate HoldsFirst(seen: map<(string, int), nat>, events: seq<Entry>, n: nat)
    requires n <= |events|
  {
    && (forall j | 0 <= j < n && Unsequenced(events[j]) ::
          (events[j].session, UnixNano(events[j].instant.value)) in seen)
    && (forall k | k in seen ::
          seen[k] < n && Unsequenced(events[seen[k]]) &&
              k == (events[seen[k]].session, UnixNano(events[seen[k]].instant.value)))
  }

  /** What the check lists: each unsequenced event that an earlier one of its session ties with. */
  method CheckOrdering(events: seq<Entry>) returns (collided: seq<nat>, stamped: nat, parseable: nat)
    ensures Lists(collided, |events|, CollidesAt(events))
    ensures parseable == Counted(events, |events|, IsTimed())
    ensures stamped == Counted(events, |events|, IsFine())
  {
    hide Collides, HoldsFirst, Lists, UnixNano;
    ghost var tie, timed, fine := CollidesAt(events), IsTimed(), IsFine();
    collided, stamped, parseable := [], 0, 0;
    var seen: map<(string, int), nat> := map[];
    NothingSeen(events, tie);
    for n := 0 to |events|
      invariant Lists(collided, n, tie) && HoldsFirst(seen, events, n)
      invariant parseable == Counted(events, n, timed) && stamped == Counted(events, n, fine)
    {
      var e := events[n];
      ListsGrows(collided, n, tie);
      CollidesIfSeen(seen, events, n);
      if !e.parsed || e.instant.None? {
        continue;
      }
      parseable := parseable + 1;
      if e.fraction {
        stamped := stamped + 1;
      }
      if e.sequence != 0 {
        continue;
      }
      var key := (e.session, UnixNano(e.instant.value));
      if key in seen {
        collided := collided + [n];
        continue;
      }
      seen := seen[key := n];
    }
  }

  lemma NothingSeen(events: seq<Entry>, p: nat -> bool)
    ensures Lists([], 0, p) && HoldsFirst(map[], events, 0)
  {
  }

  lemma CollidesIfSeen(seen: map<(string, int), nat>, events: seq<Entry>, n: nat)
    requires n < |events| && HoldsFirst(seen, events, n)
    ensures var e := events[n];
            if !Unsequenced(e) then !Collides(events, n) && HoldsFirst(seen, events, n + 1)
            else
              var key := (e.session, UnixNano(e.instant.value));
              (key in seen <==> Collides(events, n))
              && HoldsFirst(if key in seen then seen else seen[key := n], events, n + 1)
  {
    hide UnixNano;
  }

  /** Two instants tie in 64 bits exactly when they are a whole number of 2^64 nanoseconds apart;
      between 1678 and 2262 that is when they are the same. */
  lemma TiesExactly(a: int, b: int)
    ensures UnixNano(a) == UnixNano(b) <==> (a - b) % 18_446_744_073_709_551_616 == 0
    ensures -TWO_63 <= a < TWO_63 && -TWO_63 <= b < TWO_63 ==> (UnixNano(a) == UnixNano(b) <==> a == b)
  {
    var x, y := a + TWO_63, b + TWO_63;
    assert x == TWO_64 * (x / TWO_64) + x % TWO_64 && y == TWO_64 * (y / TWO_64) + y % TWO_64;
    if (a - b) % TWO_64 == 0 {
      assert x == y + TWO_64 * ((a - b) / TWO_64);
    }
  }

  /** What the three lists hold, in what the lines say: timestamps that do not parse; events more than
      5 s before an earlier one of their session; unsequenced events that an earlier unsequenced one of
      their session ties with. */
  lemma ListedExactly(events: seq<Entry>, unparseable: seq<nat>, regressions: seq<nat>, collided: seq<nat>, i: nat)
    requires Lists(unparseable, |events|, UnparseableAt(events)) && Lists(regressions, |events|, RegressesAt(events))
    requires Lists(collided, |events|, CollidesAt(events))
    ensures i in unparseable <==> i < |events| && events[i].parsed && events[i].instant == None
    ensures i in regressions
       <==> i < |events| && events[i].parsed && events[i].instant.Some?
            && exists j :: 0 <= j < i && events[j].parsed && events[j].instant.Some?
                           && events[j].session == events[i].session
                           && events[j].instant.value - events[i].instant.value > 5_000_000_000
    ensures i in collided
       <==> i < |events| && events[i].parsed && events[i].instant.Some? && events[i].sequence == 0
            && exists j :: 0 <= j < i && events[j].parsed && events[j].instant.Some? && events[j].sequence == 0
                           && events[j].session == events[i].session
                           && (events[j].instant.value - events[i].instant.value) % 18_446_744_073_709_551_616 == 0
  {
    assert UnparseableAt(events)(i) == Unparseable(events, i) && RegressesAt(events)(i) == Regresses(events, i);
    assert CollidesAt(events)(i) == Collides(events, i);
    if i < |events| && Unsequenced(events[i]) {
      forall j | 0 <= j < i && Unsequenced(events[j])
        ensures UnixNano(events[j].instant.value) == UnixNano(events[i].instant.value)
           <==> (events[j].instant.value - events[i].instant.value) % 18_446_744_073_709_551_616 == 0
      {
        TiesExactly(events[j].instant.value, events[i].instant.value);
      }
    }
    hide UnixNano;
  }

  function Where(events: seq<Entry>, n: nat, p: Entry -> bool): set<int>
    requires n <= |events|
  {
    set i | 0 <= i < n && p(events[i])
  }

  lemma WhereStep(events: seq<Entry>, n: nat, p: Entry -> bool)
    requires 0 < n <= |events|
    ensures n - 1 !in Where(events, n - 1, p)
    ensures Where(events, n, p) == Where(events, n - 1, p) + if p(events[n - 1]) then {n - 1} else {}
  {
  }

  lemma {:induction false} CountedAre(events: seq<Entry>, n: nat, p: Entry -> bool)
    requires n <= |events|
    ensures Counted(events, n, p) == |Where(events, n, p)|
  {
    if n > 0 {
      CountedAre(events, n - 1, p);
      WhereStep(events, n, p);
      hide Where;
    } else {
      assert Where(events, 0, p) == {};
    }
  }

  /** Counted are the lines with a timestamp that parses, and those of them with a fraction. */
  lemma CountsAre(events: seq<Entry>)
    ensures Counted(events, |events|, IsTimed())
         == |set i | 0 <= i < |events| && events[i].parsed && events[i].instant.Some?|
    ensures Counted(events, |events|, IsFine())
         == |set i | 0 <= i < |events| && events[i].parsed && events[i].instant.Some? && events[i].fraction|
  {
    CountedAre(events, |events|, IsTimed());
    CountedAre(events, |events|, IsFine());
    assert Where(events, |events|, IsTimed())
        == set i | 0 <= i < |events| && events[i].parsed && events[i].instant.Some?;
    assert Where(events, |events|, IsFine())
        == set i | 0 <= i < |events| && events[i].parsed && events[i].instant.Some? && events[i].fraction;
  }

  predicate InRange(e: Entry) {
    Timed(e) ==> -TWO_63 <= e.instant.value < TWO_63
  }

  /** An unsequenced event shares its session and instant with an earlier one. */
  predicate SharesInstant(events: seq<Entry>, i: nat) {
    && i < |events| && Unsequenced(events[i])
    && exists j :: 0 <= j < i && Unsequenced(events[j]) && events[j].session == events[i].session
                   && events[j].instant.value == events[i].instant.value
  }

  /** A tie is always reported; what is reported is a tie as long as the years stay between 1678
      and 2262. */
  lemma ReportsTies(events: seq<Entry>, i: nat)
    ensures SharesInstant(events, i) ==> Collides(events, i)
    ensures (forall e | e in events :: InRange(e)) ==> (Collides(events, i) <==> SharesInstant(events, i))
  {
    hide UnixNano;
    if (forall e | e in events :: InRange(e)) && Collides(events, i) {
      var j :| 0 <= j < i && Unsequenced(events[j]) && events[j].session == events[i].session
               && UnixNano(events[j].instant.value) == UnixNano(events[i].instant.value);
      assert events[j] in events && events[i] in events;
      TiesExactly(events[j].instant.value, events[i].instant.value);
    }
  }

  /** Events 2^64 nanoseconds apart, some 584 years, are reported although nothing ties. */
  lemma FarApartReported(session: string, instant: int)
    ensures var events := [Entry(true, Some(instant), true, session, 0), Entry(true, Some(instant + TWO_64), true,
           session, 0)];
            Collides(events, 1) && !SharesInstant(events, 1)
  {
    hide UnixNano;
    var events := [Entry(true, Some(instant), true, session, 0), Entry(true, Some(instant + TWO_64), true, session, 0)];
    TiesExactly(instant, instant + TWO_64);
    assert Unsequenced(events[0]) && Unsequenced(events[1]);
  }
}
