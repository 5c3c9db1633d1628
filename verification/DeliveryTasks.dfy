// The delivery queue under concurrency: any number of enqueue, flush and alarm tasks,
// serialised only by the promise chain of withQueueLock, with worker crashes and rejected
// storage calls in between.
module DeliveryTasks {
  import opened Text
  import opened Delivery

  /** Where one withQueueLock body stands. */
  datatype Body =
    | EnqueueWaits(ticket: nat)
    | EnqueueHasRead(ticket: nat, queue: seq<Item>)
    | FlushWaits
    | Posting(queue: seq<Item>, results: seq<bool>, remaining: seq<Item>)
    | Written(remaining: seq<Item>)
    | Done(flushNext: bool)  // settled; an enqueue has its own flush still to call
  {
    predicate Waits() { EnqueueWaits? || FlushWaits? }
    predicate Active() { EnqueueHasRead? || Posting? || Written? }
  }

  /** `prev` is the task whose promise queueLock held when this one was chained, -1 for none. */
  datatype Task = Task(prev: int, body: Body)

  /** `stored` and `alarm` survive a crash of the worker; `tasks` and `queueLock` do not.
      `oks` and `fails` record, per ticket, the posts that went each way. */
  datatype State = State(
    stored: seq<Item>, alarm: Option<nat>,
    tasks: seq<Task>, queueLock: int,
    oks: seq<nat>, fails: seq<nat>)

  const INIT := State([], None, [], -1, [], [])

  datatype Step =
    | CallEnqueue
    | CallFlush
    | Continue(k: nat)
    | AlarmFires
    | Read(k: nat)
    | Post(k: nat, ok: bool)
    | Write(k: nat)
    | Arm(k: nat)
    | Reject(k: nat)
    | Crash

  predicate Settled(s: State, prev: int) {
    prev < 0 || (prev < |s.tasks| && s.tasks[prev].body.Done?)
  }

  /** The task's turn in the chain has come. */
  predicate MayRead(s: State, k: nat) {
    k < |s.tasks| && s.tasks[k].body.Waits() && Settled(s, s.tasks[k].prev)
  }

  predicate MayPost(s: State, k: nat) {
    && k < |s.tasks| && s.tasks[k].body.Posting?
    && var b := s.tasks[k].body;
       |b.results| < |b.queue| && b.queue[|b.results|].ticket < |s.oks| == |s.fails|
  }

  predicate MayWrite(s: State, k: nat) {
    k < |s.tasks| && var b := s.tasks[k].body; b.EnqueueHasRead? || (b.Posting? && |b.results| == |b.queue|)
  }

  predicate Enabled(s: State, step: Step) {
    match step
    case CallEnqueue => true
    case CallFlush => true
    case Continue(k) => k < |s.tasks| && s.tasks[k].body == Done(true)
    case AlarmFires => s.alarm.Some?
    case Read(k) => MayRead(s, k)
    case Post(k, _) => MayPost(s, k)
    case Write(k) => MayWrite(s, k)
    case Arm(k) => k < |s.tasks| && s.tasks[k].body.Written?
    case Reject(k) => MayRead(s, k) || MayWrite(s, k)
    case Crash => true
  }

  /** withQueueLock: chain behind whatever queueLock holds, and become what it holds. */
  function Chain(s: State, body: Body): State {
    s.(tasks := s.tasks + [Task(s.queueLock, body)], queueLock := |s.tasks|)
  }

  function Set(s: State, k: nat, body: Body): State
    requires k < |s.tasks|
  {
    s.(tasks := s.tasks[k := s.tasks[k].(body := body)])
  }

  function Next(s: State, step: Step): State
    requires Enabled(s, step)
  {
    match step
    case CallEnqueue => Chain(s, EnqueueWaits(|s.oks|)).(oks := s.oks + [0], fails := s.fails + [0])
    case CallFlush => Chain(s, FlushWaits)
    case Continue(k) => Chain(Set(s, k, Done(false)), FlushWaits)
    case AlarmFires => Chain(s.(alarm := None), FlushWaits)
    case Read(k) =>
      (match s.tasks[k].body
       case EnqueueWaits(t) => Set(s, k, EnqueueHasRead(t, s.stored))
       case _ => Set(s, k, if s.stored == [] then Done(false) else Posting(s.stored, [], [])))
    case Post(k, ok) =>
      var b := s.tasks[k].body;
      var item := b.queue[|b.results|];
      var s' := Set(s, k, Posting(b.queue, b.results + [ok], b.remaining + Kept(item, ok)));
      if ok then s'.(oks := s.oks[item.ticket := s.oks[item.ticket] + 1])
      else s'.(fails := s.fails[item.ticket := s.fails[item.ticket] + 1])
    case Write(k) =>
      (match s.tasks[k].body
       case EnqueueHasRead(t, queue) => Set(s, k, Done(true)).(stored := queue + [Item(t, 0)])
       case Posting(_, _, remaining) => Set(s, k, Written(remaining)).(stored := remaining))
    case Arm(k) =>
      var left := s.tasks[k].body.remaining;
      Set(s, k, Done(false)).(alarm := if left == [] then s.alarm else Some(BackoffMs(left)))
    case Reject(k) => Set(s, k, Done(false))
    case Crash => s.(tasks := [], queueLock := -1)
  }

  ghost predicate CanRun(s: State, steps: seq<Step>)
    decreases |steps|
  {
    steps == [] || (Enabled(s, steps[0]) && CanRun(Next(s, steps[0]), steps[1..]))
  }

  ghost function After(s: State, steps: seq<Step>): State
    requires CanRun(s, steps)
    decreases |steps|
  {
    if steps == [] then s else After(Next(s, steps[0]), steps[1..])
  }

  ghost predicate Reachable(s: State) {
    exists steps: seq<Step> :: CanRun(INIT, steps) && After(INIT, steps) == s
  }

  // ---------------------------------------------- mutual exclusion

  /** The promise chain: every task is chained to its predecessor, and a task that has
      started finds all earlier ones settled. */
  ghost predicate LockInv(s: State) {
    && s.queueLock == |s.tasks| - 1
    && (forall k | 0 <= k < |s.tasks| :: s.tasks[k].prev == k - 1)
    && (forall j, k | 0 <= j < k < |s.tasks| :: s.tasks[k].body.Waits() || s.tasks[j].body.Done?)
  }

  lemma LockInvHolds(s: State, step: Step)
    requires LockInv(s) && Enabled(s, step)
    ensures LockInv(Next(s, step))
  {
    match step
    case CallEnqueue => ChainKeepsLock(s, EnqueueWaits(|s.oks|));
    case CallFlush => ChainKeepsLock(s, FlushWaits);
    case Continue(k) => ChainKeepsLock(Set(s, k, Done(false)), FlushWaits);
    case AlarmFires => ChainKeepsLock(s.(alarm := None), FlushWaits);
    case Crash =>
    case _ => TurnKeepsLock(s, step.k, Next(s, step).tasks[step.k].body);
  }

  lemma ChainKeepsLock(s: State, body: Body)
    requires LockInv(s) && body.Waits()
    ensures LockInv(Chain(s, body))
  {
  }

  lemma TurnKeepsLock(s: State, k: nat, body: Body)
    requires LockInv(s) && k < |s.tasks|
    requires s.tasks[k].body.Active() || (s.tasks[k].body.Waits() && Settled(s, s.tasks[k].prev))
    ensures LockInv(Set(s, k, body))
  {
  }

  /** At most one critical section is under way. */
  lemma OneActive(s: State, j: nat, k: nat)
    requires LockInv(s) && j < |s.tasks| && k < |s.tasks|
    requires s.tasks[j].body.Active() && s.tasks[k].body.Active()
    ensures j == k
  {
  }

  // -------------------------------------------------- data safety

  ghost predicate ItemsOk(queue: seq<Item>, fails: seq<nat>) {
    forall i | 0 <= i < |queue| ::
      queue[i].ticket < |fails| && queue[i].attempts < MAX_ATTEMPTS && queue[i].attempts <= fails[queue[i].ticket]
  }

  /** The posts of a flush so far are on record. */
  ghost predicate Recorded(queue: seq<Item>, results: seq<bool>, oks: seq<nat>, fails: seq<nat>)
    requires |results| <= |queue| && |oks| == |fails| && ItemsOk(queue, fails)
  {
    forall j | 0 <= j < |results| ::
      if results[j] then oks[queue[j].ticket] >= 1 else fails[queue[j].ticket] >= queue[j].attempts + 1
  }

  ghost predicate BodyOk(s: State, b: Body)
    requires |s.oks| == |s.fails| && ItemsOk(s.stored, s.fails)
  {
    match b
    case EnqueueWaits(t) => t < |s.oks|
    case EnqueueHasRead(t, queue) => t < |s.oks| && queue == s.stored
    case FlushWaits => true
    case Posting(queue, results, remaining) =>
      && queue == s.stored && |results| <= |queue|
      && remaining == Remaining(queue[..|results|], results)
      && Recorded(queue, results, s.oks, s.fails)
    case Written(remaining) => remaining == s.stored && forall i | i in remaining :: i.attempts >= 1
    case Done(_) => true
  }

  ghost predicate Inv(s: State) {
    && LockInv(s)
    && |s.oks| == |s.fails| && ItemsOk(s.stored, s.fails)
    && (forall k | 0 <= k < |s.tasks| :: BodyOk(s, s.tasks[k].body))
    && (s.alarm.Some? ==> 500 <= s.alarm.value <= 8000)
  }

  lemma {:induction false} RemainingOk(queue: seq<Item>, results: seq<bool>, fails: seq<nat>)
    requires |results| == |queue| && ItemsOk(queue, fails)
    requires forall j | 0 <= j < |queue| && !results[j] :: queue[j].attempts + 1 <= fails[queue[j].ticket]
    ensures ItemsOk(Remaining(queue, results), fails)
  {
    if queue != [] { RemainingOk(queue[..|queue| - 1], results[..|queue| - 1], fails); }
  }

  lemma RemainingSnoc(queue: seq<Item>, results: seq<bool>, ok: bool)
    requires |results| < |queue|
    ensures Remaining(queue[..|results| + 1], results + [ok])
         == Remaining(queue[..|results|], results) + Kept(queue[|results|], ok)
  {
    var n := |results|;
    assert queue[..n + 1][..n] == queue[..n] && (results + [ok])[..n] == results;
  }

  lemma InvHolds(s: State, step: Step)
    requires Inv(s) && Enabled(s, step)
    ensures Inv(Next(s, step))
  {
    LockInvHolds(s, step);
    match step
    case Read(k) =>
      ReadKeepsInv(s, k);
    case Post(k, ok) =>
      PostKeepsInv(s, k, ok);
    case Write(k) =>
      WriteKeepsInv(s, k);
    case Arm(k) =>
      var left := s.tasks[k].body.remaining;
      assert BodyOk(s, s.tasks[k].body);
      if left != [] {
        BackoffOf(left);
      }
    case _ =>
  }

  lemma ReadKeepsInv(s: State, k: nat)
    requires Inv(s) && Enabled(s, Read(k))
    ensures Inv(Next(s, Read(k)))
  {
    LockInvHolds(s, Read(k));
    assert s.stored[..0] == [];
  }

  lemma PostKeepsInv(s: State, k: nat, ok: bool)
    requires Inv(s) && Enabled(s, Post(k, ok))
    ensures Inv(Next(s, Post(k, ok)))
  {
    LockInvHolds(s, Post(k, ok));
    var s', b := Next(s, Post(k, ok)), s.tasks[k].body;
    assert BodyOk(s, b);
    PostedBodyOk(s, b, ok, s');
    forall j | 0 <= j < |s'.tasks| ensures BodyOk(s', s'.tasks[j].body) {
      if j != k {
        assert BodyOk(s, s.tasks[j].body);
        if s.tasks[j].body.Active() { OneActive(s, j, k); }
      }
    }
  }

  /** One more post on record. */
  lemma RecordedSnoc(queue: seq<Item>, results: seq<bool>, ok: bool, oks: seq<nat>, fails: seq<nat>,
                     oks': seq<nat>, fails': seq<nat>)
    requires |results| < |queue| && |oks| == |fails| && ItemsOk(queue, fails) && Recorded(queue, results, oks, fails)
    requires var t := queue[|results|].ticket;
             if ok then oks' == oks[t := oks[t] + 1] && fails' == fails
             else fails' == fails[t := fails[t] + 1] && oks' == oks
    ensures ItemsOk(queue, fails') && Recorded(queue, results + [ok], oks', fails')
  {
    var n, results' := |results|, results + [ok];
    assert forall u | 0 <= u < |oks| :: oks'[u] >= oks[u] && fails'[u] >= fails[u];
    forall j | 0 <= j <= n
      ensures if results'[j] then oks'[queue[j].ticket] >= 1 else fails'[queue[j].ticket] >= queue[j].attempts + 1
    {
      if j < n { assert results'[j] == results[j]; }
    }
  }

  lemma PostedBodyOk(s: State, b: Body, ok: bool, s': State)
    requires |s.oks| == |s.fails| && ItemsOk(s.stored, s.fails) && BodyOk(s, b)
    requires b.Posting? && |b.results| < |b.queue|
    requires s'.stored == s.stored
    requires var t := b.queue[|b.results|].ticket;
             if ok then s'.oks == s.oks[t := s.oks[t] + 1] && s'.fails == s.fails
             else s'.fails == s.fails[t := s.fails[t] + 1] && s'.oks == s.oks
    ensures ItemsOk(s'.stored, s'.fails)
    ensures BodyOk(s', Posting(b.queue, b.results + [ok], b.remaining + Kept(b.queue[|b.results|], ok)))
  {
    RemainingSnoc(b.queue, b.results, ok);
    RecordedSnoc(b.queue, b.results, ok, s.oks, s.fails, s'.oks, s'.fails);
    hide Remaining, Kept, Recorded, ItemsOk;
  }

  lemma WriteKeepsInv(s: State, k: nat)
    requires Inv(s) && Enabled(s, Write(k))
    ensures Inv(Next(s, Write(k)))
  {
    LockInvHolds(s, Write(k));
    var s', b := Next(s, Write(k)), s.tasks[k].body;
    assert BodyOk(s, b);
    if b.Posting? {
      assert b.queue[..|b.results|] == b.queue;
      RemainingOk(b.queue, b.results, s.fails);
      SurvivorsAged(b.queue, b.results);
    }
    forall j | 0 <= j < |s'.tasks| ensures BodyOk(s', s'.tasks[j].body) {
      if j != k {
        assert BodyOk(s, s.tasks[j].body);
        if s.tasks[j].body.Active() { OneActive(s, j, k); }
      }
    }
  }

  lemma {:induction false} InvAfter(s: State, steps: seq<Step>)
    requires Inv(s) && CanRun(s, steps)
    ensures Inv(After(s, steps))
    decreases |steps|
  {
    if steps != [] {
      InvHolds(s, steps[0]);
      InvAfter(Next(s, steps[0]), steps[1..]);
    }
  }

  /** A write updates exactly what is stored at that moment: an enqueue appends to it, a
      flush writes what its own posts left of it. */
  ghost predicate WritesOver(stored: seq<Item>, body: Body, after: seq<Item>) {
    if body.EnqueueHasRead? then after == stored + [Item(body.ticket, 0)]
    else body.Posting? && |body.results| == |stored| && after == Remaining(stored, body.results)
  }

  lemma WriteIsCurrent(s: State, k: nat)
    requires Inv(s) && Enabled(s, Write(k))
    ensures WritesOver(s.stored, s.tasks[k].body, Next(s, Write(k)).stored)
  {
    var b := s.tasks[k].body;
    assert BodyOk(s, b);
    if b.Posting? {
      assert b.queue[..|b.results|] == b.queue;
    }
  }

  lemma ReachableInv(s: State)
    requires Reachable(s)
    ensures Inv(s)
  {
    var steps :| CanRun(INIT, steps) && After(INIT, steps) == s;
    InvAfter(INIT, steps);
  }

  /** In every run, crashes and rejections included, no task's write is overwritten unseen. */
  lemma NoLostUpdate(s: State, k: nat)
    requires Reachable(s) && Enabled(s, Write(k))
    ensures WritesOver(s.stored, s.tasks[k].body, Next(s, Write(k)).stored)
  {
    ReachableInv(s);
    WriteIsCurrent(s, k);
  }

  // ------------------------------------------- one section at a time

  function Posts(k: nat, oks: seq<bool>): (steps: seq<Step>)
    ensures |steps| == |oks|
  {
    if oks == [] then [] else Posts(k, oks[..|oks| - 1]) + [Post(k, oks[|oks| - 1])]
  }

  lemma {:induction false} RunAppend(s: State, a: seq<Step>, b: seq<Step>)
    requires CanRun(s, a) && CanRun(After(s, a), b)
    ensures CanRun(s, a + b) && After(s, a + b) == After(After(s, a), b)
    decreases |a|
  {
    if a == [] {
      assert a + b == b;
    } else {
      hide Next, Enabled;
      assert (a + b)[1..] == a[1..] + b;
      RunAppend(Next(s, a[0]), a[1..], b);
    }
  }

  lemma RunOne(s: State, step: Step)
    requires Enabled(s, step)
    ensures CanRun(s, [step]) && After(s, [step]) == Next(s, step)
  {
    hide Next, Enabled;
    assert [step][1..] == [];
  }

  lemma RunTwo(s: State, a: Step, b: Step)
    requires Enabled(s, a) && Enabled(Next(s, a), b)
    ensures CanRun(s, [a, b]) && After(s, [a, b]) == Next(Next(s, a), b)
  {
    hide Next, Enabled;
    RunOne(s, a);
    RunOne(Next(s, a), b);
    RunAppend(s, [a], [b]);
    assert [a] + [b] == [a, b];
  }

  lemma {:induction false} PostsRun(s: State, k: nat, oks: seq<bool>)
    requires Inv(s) && k < |s.tasks| && s.tasks[k].body == Posting(s.stored, [], []) && |oks| <= |s.stored|
    ensures CanRun(s, Posts(k, oks))
    ensures var after := After(s, Posts(k, oks));
            && Inv(after) && after.stored == s.stored && after.alarm == s.alarm && k < |after.tasks|
            && after.tasks[k].body == Posting(s.stored, oks, Remaining(s.stored[..|oks|], oks))
  {
    hide Inv, ItemsOk, LockInv, Remaining, Kept;
    if oks == [] {
      assert s.stored[..0] == [] && Remaining([], []) == [] by { FlushItemByItem([], [], Item(0, 0), true, [], []); }
    } else {
      var n := |oks| - 1;
      var front, ok := oks[..n], oks[n];
      PostsRun(s, k, front);
      var mid := After(s, Posts(k, front));
      InvMayPost(mid, k, n);
      PostsKeepInv(mid, k, ok);
      RunOne(mid, Post(k, ok));
      RunAppend(s, Posts(k, front), [Post(k, ok)]);
      RemainingSnoc(s.stored, front, ok);
      assert front + [ok] == oks && |front| == n;
    }
  }

  lemma InvMayPost(s: State, k: nat, n: nat)
    requires Inv(s) && k < |s.tasks| && s.tasks[k].body.Posting?
    requires n == |s.tasks[k].body.results| < |s.stored| && s.tasks[k].body.queue == s.stored
    ensures MayPost(s, k)
  {
  }

  lemma PostsKeepInv(s: State, k: nat, ok: bool)
    requires Inv(s) && MayPost(s, k)
    ensures Inv(Next(s, Post(k, ok)))
  {
    InvHolds(s, Post(k, ok));
  }

  /** A flush whose turn has come, run to its end: it reads the queue, posts every item, writes back
      what the posts leave, and sets the alarm if that is anything. */
  lemma FlushTask(s: State, k: nat, oks: seq<bool>)
    requires Inv(s) && MayRead(s, k) && s.tasks[k].body == FlushWaits && s.stored != [] && |oks| == |s.stored|
    ensures var steps := [Read(k)] + (Posts(k, oks) + [Write(k), Arm(k)]);
            CanRun(s, steps)
            && var after, left := After(s, steps), Remaining(s.stored, oks);
               && after.stored == left && after.alarm == (if left == [] then s.alarm else Some(BackoffMs(left)))
               && k < |after.tasks| && after.tasks[k].body == Done(false)
  {
    InvHolds(s, Read(k));
    var started := Next(s, Read(k));
    RunOne(s, Read(k));
    PostsRun(started, k, oks);
    var posted := After(started, Posts(k, oks));
    assert s.stored[..|oks|] == s.stored;
    WriteAndArm(posted, k);
    RunAppend(started, Posts(k, oks), [Write(k), Arm(k)]);
    RunAppend(s, [Read(k)], Posts(k, oks) + [Write(k), Arm(k)]);
    hide *;
  }

  lemma WriteAndArm(s: State, k: nat)
    requires MayWrite(s, k) && s.tasks[k].body.Posting?
    ensures CanRun(s, [Write(k), Arm(k)])
    ensures var after, left := After(s, [Write(k), Arm(k)]), s.tasks[k].body.remaining;
            && after.stored == left && after.alarm == (if left == [] then s.alarm else Some(BackoffMs(left)))
            && k < |after.tasks| && after.tasks[k].body == Done(false)
  {
    RunTwo(s, Write(k), Arm(k));
    hide CanRun;
  }

  /** With nothing stored it ends at once, and an enqueue appends its item and then owes a flush. */
  lemma OtherTasks(s: State, k: nat)
    requires Inv(s) && MayRead(s, k)
    ensures s.tasks[k].body == FlushWaits && s.stored == [] ==> Next(s, Read(k)) == Set(s, k, Done(false))
    ensures var b := s.tasks[k].body;
            b.EnqueueWaits? ==>
              CanRun(s, [Read(k), Write(k), Continue(k)])
              && var after := After(s, [Read(k), Write(k), Continue(k)]);
                 && after.stored == s.stored + [Item(b.ticket, 0)] && after.alarm == s.alarm
                 && |after.tasks| == |s.tasks| + 1 && after.tasks[k].body == Done(false)
                 && after.tasks[|s.tasks|] == Task(s.queueLock, FlushWaits) && after.queueLock == |s.tasks|
  {
    if s.tasks[k].body.EnqueueWaits? {
      var read := Next(s, Read(k));
      var written := Next(read, Write(k));
      assert read.tasks[k].body == EnqueueHasRead(s.tasks[k].body.ticket, s.stored);
      assert written.tasks[k].body == Done(true);
      RunTwo(read, Write(k), Continue(k));
      RunOne(s, Read(k));
      RunAppend(s, [Read(k)], [Write(k), Continue(k)]);
      assert [Read(k)] + [Write(k), Continue(k)] == [Read(k), Write(k), Continue(k)];
      hide CanRun, Inv;
    }
  }

  predicate Holds(queue: seq<Item>, ticket: nat) {
    exists i :: 0 <= i < |queue| && queue[i].ticket == ticket
  }

  lemma {:induction false} KeptStays(queue: seq<Item>, results: seq<bool>, j: nat)
    requires |results| == |queue| && j < |queue| && !results[j] && queue[j].attempts + 1 < MAX_ATTEMPTS
    ensures Holds(Remaining(queue, results), queue[j].ticket)
  {
    var n := |queue| - 1;
    var front := Remaining(queue[..n], results[..n]);
    if j < n {
      KeptStays(queue[..n], results[..n], j);
      var i :| 0 <= i < |front| && front[i].ticket == queue[j].ticket;
      assert Remaining(queue, results)[i] == front[i];
    } else {
      assert Remaining(queue, results)[|front|].ticket == queue[j].ticket;
    }
  }

  lemma StaysOrIsExcused(s: State, step: Step, j: nat)
    requires Inv(s) && Enabled(s, step) && j < |s.stored|
    ensures var t := s.stored[j].ticket;
            Holds(Next(s, step).stored, t) || s.oks[t] >= 1 || s.fails[t] >= MAX_ATTEMPTS
  {
    var after := Next(s, step).stored;
    if step.Write? {
      var b := s.tasks[step.k].body;
      assert BodyOk(s, b);
      if b.EnqueueHasRead? {
        assert after[j] == s.stored[j];
      } else {
        assert b.queue[..|b.results|] == b.queue;
        if !b.results[j] && s.stored[j].attempts + 1 < MAX_ATTEMPTS {
          KeptStays(b.queue, b.results, j);
        }
      }
    } else {
      assert after == s.stored;
    }
  }

  /** In every run, crashes and rejections included, an item leaves storage only after a
      successful post of it or after six failed ones. */
  lemma LeavesStorageExcused(s: State, step: Step, ticket: nat)
    requires Reachable(s) && Enabled(s, step)
    requires Holds(s.stored, ticket) && !Holds(Next(s, step).stored, ticket)
    ensures ticket < |s.oks| == |s.fails|
    ensures s.oks[ticket] >= 1 || s.fails[ticket] >= 6
  {
    ReachableInv(s);
    var j :| 0 <= j < |s.stored| && s.stored[j].ticket == ticket;
    StaysOrIsExcused(s, step, j);
  }

  /** Every alarm in every run asks for a delay of half a second to eight seconds. */
  lemma AlarmDelayBounded(s: State)
    requires Reachable(s) && s.alarm.Some?
    ensures 500 <= s.alarm.value <= 8000
  {
    ReachableInv(s);
  }

  /** The steps the worker takes on its own, as against new calls, crashes and rejections. */
  predicate Internal(step: Step) {
    step.Continue? || step.AlarmFires? || step.Read? || step.Post? || step.Write? || step.Arm?
  }

  /** Nothing the worker would still do on its own. */
  ghost predicate Quiet(s: State) {
    forall step | Internal(step) :: !Enabled(s, step)
  }

  /** An enqueue up to where it would call its flush. */
  const STORED := State([Item(0, 0)], None, [Task(-1, Done(true))], 0, [0], [0])

  lemma ItemIsStored()
    ensures var steps := [CallEnqueue, Read(0), Write(0)]; CanRun(INIT, steps) && After(INIT, steps) == STORED
  {
    var steps := [CallEnqueue, Read(0), Write(0)];
    assert steps[1..] == [Read(0), Write(0)];
    assert steps[1..][1..] == [Write(0)];
    assert steps[1..][1..][1..] == [];
  }

  /** A crash can strand the queue: an item is stored and nothing is left to run. */
  lemma CrashStrandsQueue()
    ensures var steps := [CallEnqueue, Read(0), Write(0), Crash];
            CanRun(INIT, steps) && After(INIT, steps).stored == [Item(0, 0)] && Quiet(After(INIT, steps))
  {
    ItemIsStored();
    var first := [CallEnqueue, Read(0), Write(0)];
    assert [Crash][1..] == [];
    RunAppend(INIT, first, [Crash]);
    assert first + [Crash] == [CallEnqueue, Read(0), Write(0), Crash];
    hide INIT, CanRun;
  }

  /** So can a storage call rejected inside the flush. */
  lemma RejectStrandsQueue()
    ensures var steps := [CallEnqueue, Read(0), Write(0), Continue(0), Reject(1)];
            CanRun(INIT, steps) && After(INIT, steps).stored == [Item(0, 0)] && Quiet(After(INIT, steps))
  {
    ItemIsStored();
    var first, last := [CallEnqueue, Read(0), Write(0)], [Continue(0), Reject(1)];
    assert last[1..] == [Reject(1)] && [Reject(1)][1..] == [];
    RunAppend(INIT, first, last);
    assert first + last == [CallEnqueue, Read(0), Write(0), Continue(0), Reject(1)];
    hide INIT, CanRun;
  }
}
