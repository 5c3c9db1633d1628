// browser-extension/src/background/delivery.ts: the durable delivery queue, one critical
// section at a time. The interleavings of many tasks are in DeliveryTasks.
module Delivery {
  import opened Text

  const MAX_ATTEMPTS: nat := 6
  const BASE_MS: nat := 250
  const CAP_MS: nat := 60_000

  /** One stored envelope. `ticket` numbers the enqueueTurn calls and stands for the envelope. */
  datatype Item = Item(ticket: nat, attempts: nat)

  function Power2(n: nat): nat {
    if n == 0 then 1 else 2 * Power2(n - 1)
  }

  /** What one post leaves of its item: nothing on success or on the last failure. */
  function AfterPost(item: Item, ok: bool): Option<Item> {
    if ok || item.attempts + 1 >= MAX_ATTEMPTS then None
    else Some(item.(attempts := item.attempts + 1))
  }

  function Kept(item: Item, ok: bool): seq<Item> {
    match AfterPost(item, ok)
    case None => []
    case Some(left) => [left]
  }

  /** The queue a flush writes back, given how each post went. */
  function Remaining(queue: seq<Item>, oks: seq<bool>): seq<Item>
    requires |oks| == |queue|
  {
    if queue == [] then []
    else Remaining(queue[..|queue| - 1], oks[..|queue| - 1]) + Kept(queue[|queue| - 1], oks[|queue| - 1])
  }

  function MinAttempts(queue: seq<Item>): (m: nat)
    requires queue != []
    ensures forall i | i in queue :: m <= i.attempts
    ensures exists i | i in queue :: i.attempts == m
  {
    if |queue| == 1 then queue[0].attempts
    else
      var m := MinAttempts(queue[1..]);
      if queue[0].attempts < m then queue[0].attempts else m
  }

  function BackoffMs(queue: seq<Item>): nat
    requires queue != []
  {
    var ms := BASE_MS * Power2(MinAttempts(queue));
    if ms < CAP_MS then ms else CAP_MS
  }

  /** Every stored item has a failure to spare. */
  ghost predicate Live(queue: seq<Item>) {
    forall i | 0 <= i < |queue| :: queue[i].attempts < MAX_ATTEMPTS
  }

  /** The stored queue and the alarm, and the critical sections that rewrite them. */
  class DeliveryQueue {
    var stored: seq<Item>
    var alarm: Option<nat>

    constructor ()
      ensures stored == [] && alarm == None
    {
      stored, alarm := [], None;
    }

    method Enqueue(item: Item)
      modifies this
      ensures stored == old(stored) + [item] && alarm == old(alarm)
    {
      var queue := stored;
      queue := queue + [item];
      stored := queue;
    }

    /** One flush; `oks[i]` is how the post of the i-th queued item goes. */
    method Flush(oks: seq<bool>)
      requires |oks| == |stored|
      modifies this
      ensures stored == Remaining(old(stored), oks)
      ensures alarm == if stored == [] then old(alarm) else Some(BackoffMs(stored))
    {
      var queue := stored;
      if |queue| == 0 {
        return;
      }
      var remaining: seq<Item> := [];
      var anyFailed := false;
      for n := 0 to |queue|
        invariant remaining == Remaining(queue[..n], oks[..n])
        invariant anyFailed <==> remaining != []
        invariant stored == queue && alarm == old(alarm)
      {
        var item := queue[n];
        assert queue[..n + 1][..n] == queue[..n] && oks[..n + 1][..n] == oks[..n];
        if !oks[n] {
          item := item.(attempts := item.attempts + 1);
          if item.attempts < MAX_ATTEMPTS {
            remaining := remaining + [item];
            anyFailed := true;
          }
        }
      }
      assert queue[..|queue|] == queue && oks[..|queue|] == oks;
      stored := remaining;
      if anyFailed {
        ScheduleRetry(remaining);
      }
    }

    method ScheduleRetry(queue: seq<Item>)
      requires queue != []
      modifies this`alarm
      ensures alarm == Some(BackoffMs(queue))
    {
      var minAttempts := MinAttempts(queue);
      var ms := BASE_MS * Power2(minAttempts);
      alarm := Some(if ms < CAP_MS then ms else CAP_MS);
    }
  }

  // ------------------------------------------------- one flush

  /** Failures still to be spent by a queue. */
  function Potential(queue: seq<Item>): int {
    if queue == [] then 0
    else Potential(queue[..|queue| - 1]) + MAX_ATTEMPTS - queue[|queue| - 1].attempts
  }

  lemma PotentialSnoc(queue: seq<Item>, item: Item)
    ensures Potential(queue + [item]) == Potential(queue) + MAX_ATTEMPTS - item.attempts
  {
    assert (queue + [item])[..|queue|] == queue;
  }

  lemma {:induction false} PotentialAppend(a: seq<Item>, b: seq<Item>)
    ensures Potential(a + b) == Potential(a) + Potential(b)
  {
    if b == [] {
      assert a + b == a;
    } else {
      PotentialAppend(a, b[..|b| - 1]);
      assert (a + b)[..|a + b| - 1] == a + b[..|b| - 1];
    }
  }

  lemma {:induction false} PotentialBounds(queue: seq<Item>)
    requires Live(queue)
    ensures |queue| <= Potential(queue) <= MAX_ATTEMPTS * |queue|
  {
    if queue != [] { PotentialBounds(queue[..|queue| - 1]); }
  }

  /** A survivor of a flush is a queued item one attempt older, still with a failure to spare. */
  lemma {:induction false} SurvivorsAged(queue: seq<Item>, oks: seq<bool>)
    requires |oks| == |queue|
    ensures forall i | i in Remaining(queue, oks) ::
              1 <= i.attempts < MAX_ATTEMPTS && Item(i.ticket, i.attempts - 1) in queue
  {
    if queue != [] {
      var n := |queue| - 1;
      SurvivorsAged(queue[..n], oks[..n]);
      forall i | i in Remaining(queue, oks)
        ensures 1 <= i.attempts < MAX_ATTEMPTS && Item(i.ticket, i.attempts - 1) in queue
      {
        if i in Remaining(queue[..n], oks[..n]) {
          assert Item(i.ticket, i.attempts - 1) in queue[..n];
        } else {
          assert i in Kept(queue[n], oks[n]);
          assert queue[n] == Item(i.ticket, i.attempts - 1);
        }
      }
    }
  }

  lemma RemainingLast(queue: seq<Item>, oks: seq<bool>, item: Item, ok: bool)
    requires |oks| == |queue|
    ensures Remaining(queue + [item], oks + [ok])
         == Remaining(queue, oks) + Kept(item, ok)
  {
    assert (queue + [item])[..|queue|] == queue && (oks + [ok])[..|queue|] == oks;
  }

  lemma {:induction false} RemainingAppend(queue: seq<Item>, oks: seq<bool>, more: seq<Item>, oks': seq<bool>)
    requires |oks| == |queue| && |oks'| == |more|
    ensures Remaining(queue + more, oks + oks') == Remaining(queue, oks) + Remaining(more, oks')
    decreases |more|
  {
    if more == [] {
      assert queue + more == queue && oks + oks' == oks;
    } else {
      hide Remaining, Kept;
      var n := |more| - 1;
      Unsnoc(queue, more);
      Unsnoc(oks, oks');
      RemainingAppend(queue, oks, more[..n], oks'[..n]);
      RemainingLast(queue + more[..n], oks + oks'[..n], more[n], oks'[n]);
      RemainingLast(more[..n], oks'[..n], more[n], oks'[n]);
      Assoc(Remaining(queue, oks), Remaining(more[..n], oks'[..n]), Kept(more[n], oks'[n]));
    }
  }

  lemma Unsnoc<T>(a: seq<T>, b: seq<T>)
    requires b != []
    ensures b == b[..|b| - 1] + [b[|b| - 1]] && a + b == a + b[..|b| - 1] + [b[|b| - 1]]
  {
  }

  /** A flush goes item by item, in order: one whose post fails stays with one failure more if it has
      had fewer than five, and any other goes. */
  lemma FlushItemByItem(queue: seq<Item>, oks: seq<bool>, item: Item, ok: bool, more: seq<Item>, oks': seq<bool>)
    requires |oks| == |queue| && |oks'| == |more|
    ensures Remaining([], []) == []
    ensures Remaining(queue + [item] + more, oks + [ok] + oks')
         == Remaining(queue, oks)
            + (if !ok && item.attempts < 5 then [Item(item.ticket, item.attempts + 1)] else [])
            + Remaining(more, oks')
  {
    assert Remaining([], []) == [];
    KeptMeans(item, ok);
    hide Remaining, Kept;
    RemainingLast(queue, oks, item, ok);
    RemainingAppend(queue + [item], oks + [ok], more, oks');
  }

  lemma KeptMeans(item: Item, ok: bool)
    ensures Kept(item, ok) == if !ok && item.attempts < 5 then [Item(item.ticket, item.attempts + 1)] else []
  {
  }

  /** Each post of a flush costs at least one unit of potential. */
  lemma {:induction false} FlushLowersPotential(queue: seq<Item>, oks: seq<bool>)
    requires |oks| == |queue| && Live(queue)
    ensures Potential(Remaining(queue, oks)) <= Potential(queue) - |queue|
  {
    if queue != [] {
      var n := |queue| - 1;
      FlushLowersPotential(queue[..n], oks[..n]);
      KeptPotential(queue[n], oks[n]);
      PotentialAppend(Remaining(queue[..n], oks[..n]), Kept(queue[n], oks[n]));
    }
  }

  lemma KeptPotential(item: Item, ok: bool)
    requires item.attempts < MAX_ATTEMPTS
    ensures Potential(Kept(item, ok)) <= MAX_ATTEMPTS - item.attempts - 1
  {
    var left := Kept(item, ok);
    if left != [] {
      PotentialSnoc([], left[0]);
      assert [] + [left[0]] == left;
    }
  }

  /** `rounds[k]` says how the posts of the k-th flush go. */
  ghost predicate Fits(queue: seq<Item>, rounds: seq<seq<bool>>)
    decreases rounds
  {
    rounds == [] || (|rounds[0]| == |queue| && Fits(Remaining(queue, rounds[0]), rounds[1..]))
  }

  function Flushes(queue: seq<Item>, rounds: seq<seq<bool>>): seq<Item>
    requires Fits(queue, rounds)
    decreases rounds
  {
    if rounds == [] then queue else Flushes(Remaining(queue, rounds[0]), rounds[1..])
  }

  lemma {:induction false} AttemptsGrow(queue: seq<Item>, rounds: seq<seq<bool>>, floor: nat)
    requires Fits(queue, rounds) && Live(queue)
    requires forall i | i in queue :: floor <= i.attempts
    ensures Live(Flushes(queue, rounds))
    ensures forall i | i in Flushes(queue, rounds) :: floor + |rounds| <= i.attempts
    ensures Flushes(queue, rounds) != [] ==> floor + |rounds| < MAX_ATTEMPTS
    decreases rounds
  {
    if rounds == [] {
      assert queue != [] ==> queue[0] in queue;
    } else {
      SurvivorsAged(queue, rounds[0]);
      AttemptsGrow(Remaining(queue, rounds[0]), rounds[1..], floor + 1);
    }
  }

  /** Six flushes with nothing enqueued between them empty any queue, however the posts go. */
  lemma SixFlushesEmpty(queue: seq<Item>, rounds: seq<seq<bool>>)
    requires Live(queue) && Fits(queue, rounds) && |rounds| == 6
    ensures Flushes(queue, rounds) == []
  {
    AttemptsGrow(queue, rounds, 0);
  }

  lemma {:induction false} Power2Grows(m: nat, n: nat)
    requires m <= n
    ensures Power2(m) <= Power2(n)
  {
    if m < n { Power2Grows(m, n - 1); }
  }

  /** Every retry is scheduled half a second to eight seconds ahead, twice as far with each failure of
      the item that has failed least: the cap of a minute is never met. */
  lemma BackoffNeverCapped(queue: seq<Item>, oks: seq<bool>)
    requires |oks| == |queue| && Live(queue) && Remaining(queue, oks) != []
    ensures var left := Remaining(queue, oks);
            && (exists i :: i in left && IsLeast(left, i))
            && forall i | i in left && IsLeast(left, i) ::
                 1 <= i.attempts <= 5 && BackoffMs(left) == [500, 1000, 2000, 4000, 8000][i.attempts - 1] < 60_000
  {
    SurvivorsAged(queue, oks);
    LeastDelay(Remaining(queue, oks));
  }

  lemma LeastDelay(left: seq<Item>)
    requires left != [] && forall i | i in left :: 1 <= i.attempts < MAX_ATTEMPTS
    ensures exists i :: i in left && IsLeast(left, i)
    ensures forall i | i in left && IsLeast(left, i) ::
              1 <= i.attempts <= 5 && BackoffMs(left) == [500, 1000, 2000, 4000, 8000][i.attempts - 1] < 60_000
  {
    var m := MinAttempts(left);
    var least :| least in left && least.attempts == m;
    assert IsLeast(left, least);
    BackoffTable(m);
    hide Power2;
    forall i | i in left && IsLeast(left, i) ensures i.attempts == m {
    }
  }

  /** No item of the queue has failed less. */
  ghost predicate IsLeast(queue: seq<Item>, item: Item) {
    forall i | i in queue :: item.attempts <= i.attempts
  }

  lemma BackoffTable(m: nat)
    requires 1 <= m <= 5
    ensures BASE_MS * Power2(m) == [500, 1000, 2000, 4000, 8000][m - 1] < CAP_MS
  {
    assert Power2(1) == 2 * Power2(0) && Power2(2) == 2 * Power2(1) && Power2(3) == 2 * Power2(2);
    assert Power2(4) == 2 * Power2(3) && Power2(5) == 2 * Power2(4);
  }

  lemma BackoffOf(left: seq<Item>)
    requires left != [] && forall i | i in left :: 1 <= i.attempts <= MAX_ATTEMPTS - 1
    ensures 1 <= MinAttempts(left) <= 5
    ensures BackoffMs(left) == BASE_MS * Power2(MinAttempts(left))
    ensures 500 <= BackoffMs(left) <= 8000 < CAP_MS
  {
    var m := MinAttempts(left);
    assert left[0] in left;
    Power2Grows(1, m);
    Power2Grows(m, 5);
    assert Power2(1) == 2 * Power2(0);
    assert Power2(5) == 2 * Power2(4) && Power2(4) == 2 * Power2(3) && Power2(3) == 2 * Power2(2);
  }
}
