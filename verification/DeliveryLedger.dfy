// Runs without crashes and rejections: every enqueued item is accounted for, something is
// always set to run while the queue is not empty, and the worker's own steps come to an end.
// What of that a crash leaves standing.
module DeliveryLedger {
  import opened Text
  import opened Delivery
  import opened DeliveryTasks

  predicate Clean(step: Step) {
    !step.Crash? && !step.Reject?
  }

  ghost predicate CleanReachable(s: State) {
    exists steps: seq<Step> ::
      CanRun(INIT, steps) && After(INIT, steps) == s && forall step | step in steps :: Clean(step)
  }

  // ------------------------------------------------ the ledger

  /** The index of the first task that has not settled. */
  function FirstOpen(tasks: seq<Task>): (k: nat)
    ensures k <= |tasks|
    ensures forall j | 0 <= j < k :: tasks[j].body.Done?
    ensures k < |tasks| ==> !tasks[k].body.Done?
  {
    if tasks == [] || !tasks[0].body.Done? then 0 else 1 + FirstOpen(tasks[1..])
  }

  /** The queue as it stands, counting the posts a flush under way has made. */
  function Logical(s: State): seq<Item> {
    var k := FirstOpen(s.tasks);
    if k < |s.tasks| && s.tasks[k].body.Posting? && |s.tasks[k].body.results| <= |s.tasks[k].body.queue|
    then s.tasks[k].body.remaining + s.tasks[k].body.queue[|s.tasks[k].body.results|..]
    else s.stored
  }

  function OwnTicket(b: Body): seq<nat> {
    if b.EnqueueWaits? || b.EnqueueHasRead? then [b.ticket] else []
  }

  /** The tickets of enqueues whose item is not stored yet, in chain order. */
  function Waiting(tasks: seq<Task>): seq<nat> {
    if tasks == [] then [] else OwnTicket(tasks[0].body) + Waiting(tasks[1..])
  }

  /** Enqueue order: along the queue, along the enqueues under way, and from one to the other. */
  ghost predicate InOrder(queue: seq<Item>, waiting: seq<nat>) {
    && (forall i, j | 0 <= i < j < |queue| :: queue[i].ticket < queue[j].ticket)
    && (forall i, j | 0 <= i < j < |waiting| :: waiting[i] < waiting[j])
    && (forall i, j | 0 <= i < |queue| && 0 <= j < |waiting| :: queue[i].ticket < waiting[j])
  }

  predicate Delivered(oks: seq<nat>, fails: seq<nat>, t: nat)
    requires t < |oks| == |fails|
  {
    oks[t] == 1 && fails[t] < 6
  }

  predicate Dropped(oks: seq<nat>, fails: seq<nat>, t: nat)
    requires t < |oks| == |fails|
  {
    oks[t] == 0 && fails[t] == 6
  }

  /** An item that is still pending: never delivered, its attempts being its failures. */
  ghost predicate Counted(oks: seq<nat>, fails: seq<nat>, item: Item) {
    item.ticket < |oks| == |fails| && oks[item.ticket] == 0 && fails[item.ticket] == item.attempts < MAX_ATTEMPTS
  }

  /** The tickets of the queue in order, then those of the enqueues under way, increase; their
      counts agree with the record of posts; every other ticket is delivered or dropped. */
  ghost predicate Books(queue: seq<Item>, waiting: seq<nat>, oks: seq<nat>, fails: seq<nat>) {
    && |oks| == |fails|
    && InOrder(queue, waiting)
    && (forall i | 0 <= i < |queue| :: Counted(oks, fails, queue[i]))
    && (forall i | 0 <= i < |waiting| :: Counted(oks, fails, Item(waiting[i], 0)))
    && (forall t | 0 <= t < |oks| ::
          Holds(queue, t) || t in waiting || Delivered(oks, fails, t) || Dropped(oks, fails, t))
  }

  ghost predicate Ledger(s: State) {
    Books(Logical(s), Waiting(s.tasks), s.oks, s.fails)
  }

  // --------------------------------------- what steps do to the books

  lemma BooksEnqueue(queue: seq<Item>, waiting: seq<nat>, oks: seq<nat>, fails: seq<nat>)
    requires Books(queue, waiting, oks, fails)
    ensures Books(queue, waiting + [|oks|], oks + [0], fails + [0])
  {
    var t, oks', fails' := |oks|, oks + [0], fails + [0];
    var waiting' := waiting + [t];
    forall i | 0 <= i < |queue| ensures Counted(oks', fails', queue[i]) {
      assert Counted(oks, fails, queue[i]);
    }
    forall i | 0 <= i < |waiting'| ensures Counted(oks', fails', Item(waiting'[i], 0)) {
      if i < |waiting| { assert Counted(oks, fails, Item(waiting[i], 0)); }
    }
    forall u | 0 <= u < |oks'|
      ensures Holds(queue, u) || u in waiting' || Delivered(oks', fails', u) || Dropped(oks', fails', u)
    {
      if u == t {
        assert waiting'[|waiting|] == t;
      } else if u in waiting {
        var i :| 0 <= i < |waiting| && waiting[i] == u;
        assert waiting'[i] == u;
      }
    }
  }

  /** An enqueue's ticket moves from the head of the waiting ones to the end of the queue. */
  lemma BooksStore(queue: seq<Item>, t: nat, later: seq<nat>, oks: seq<nat>, fails: seq<nat>)
    requires Books(queue, [t] + later, oks, fails)
    ensures Books(queue + [Item(t, 0)], later, oks, fails)
  {
    var queue', waiting := queue + [Item(t, 0)], [t] + later;
    assert waiting[0] == t && forall i | 0 <= i < |later| :: later[i] == waiting[i + 1];
    assert Counted(oks, fails, Item(waiting[0], 0));
    forall u | 0 <= u < |oks|
      ensures Holds(queue', u) || u in later || Delivered(oks, fails, u) || Dropped(oks, fails, u)
    {
      if Holds(queue, u) {
        var i :| 0 <= i < |queue| && queue[i].ticket == u;
        assert queue'[i].ticket == u;
      } else if u == t {
        assert queue'[|queue|].ticket == t;
      }
    }
  }

  ghost predicate PostRecorded(oks: seq<nat>, fails: seq<nat>, t: nat, ok: bool, oks': seq<nat>, fails': seq<nat>)
    requires t < |oks| == |fails|
  {
    if ok then oks' == oks[t := oks[t] + 1] && fails' == fails
    else fails' == fails[t := fails[t] + 1] && oks' == oks
  }

  /** One post: the item at the cursor is delivered, dropped, or kept one attempt older. */
  lemma BooksPost(kept: seq<Item>, item: Item, tail: seq<Item>, ok: bool, waiting: seq<nat>,
                  oks: seq<nat>, fails: seq<nat>, oks': seq<nat>, fails': seq<nat>)
    requires Books(kept + [item] + tail, waiting, oks, fails)
    requires item.ticket < |oks| && PostRecorded(oks, fails, item.ticket, ok, oks', fails')
    ensures Books(kept + Kept(item, ok) + tail, waiting, oks', fails')
  {
    var queue, left := kept + [item] + tail, Kept(item, ok);
    var at := |kept|;
    assert queue[at] == item;
    if left == [] {
      var queue' := kept + tail;
      assert kept + left + tail == queue';
      BooksDrop(queue, at, waiting, oks, fails, oks', fails');
      assert queue' == queue[..at] + queue[at + 1..];
    } else {
      assert kept + left + tail == queue[at := left[0]];
      BooksAge(queue, at, waiting, oks, fails, fails');
    }
  }

  lemma BooksAge(queue: seq<Item>, at: nat, waiting: seq<nat>, oks: seq<nat>, fails: seq<nat>, fails': seq<nat>)
    requires Books(queue, waiting, oks, fails)
    requires at < |queue| && queue[at].ticket < |fails| && queue[at].attempts + 1 < MAX_ATTEMPTS
    requires fails' == fails[queue[at].ticket := fails[queue[at].ticket] + 1]
    ensures Books(queue[at := queue[at].(attempts := queue[at].attempts + 1)], waiting, oks, fails')
  {
    var t := queue[at].ticket;
    var queue' := queue[at := queue[at].(attempts := queue[at].attempts + 1)];
    assert Counted(oks, fails, queue[at]);
    assert forall i | 0 <= i < |queue| :: queue'[i].ticket == queue[i].ticket;
    forall i | 0 <= i < |queue'| ensures Counted(oks, fails', queue'[i]) {
      assert Counted(oks, fails, queue[i]);
    }
    forall i | 0 <= i < |waiting| ensures Counted(oks, fails', Item(waiting[i], 0)) {
      assert Counted(oks, fails, Item(waiting[i], 0));
    }
    forall u | 0 <= u < |oks|
      ensures Holds(queue', u) || u in waiting || Delivered(oks, fails', u) || Dropped(oks, fails', u)
    {
      if Holds(queue, u) {
        var i :| 0 <= i < |queue| && queue[i].ticket == u;
        assert queue'[i].ticket == u;
      } else {
        assert u != t;
      }
    }
  }

  lemma BooksDrop(queue: seq<Item>, at: nat, waiting: seq<nat>,
                  oks: seq<nat>, fails: seq<nat>, oks': seq<nat>, fails': seq<nat>)
    requires Books(queue, waiting, oks, fails)
    requires at < |queue| && queue[at].ticket < |oks|
    requires exists ok :: PostRecorded(oks, fails, queue[at].ticket, ok, oks', fails')
                          && (ok || queue[at].attempts + 1 >= MAX_ATTEMPTS)
    ensures Books(queue[..at] + queue[at + 1..], waiting, oks', fails')
  {
    var t := queue[at].ticket;
    var queue' := queue[..at] + queue[at + 1..];
    assert Counted(oks, fails, queue[at]);
    assert forall i | 0 <= i < |queue'| :: queue'[i] == queue[if i < at then i else i + 1];
    forall i | 0 <= i < |queue'| ensures Counted(oks', fails', queue'[i]) {
      assert Counted(oks, fails, queue[if i < at then i else i + 1]);
    }
    forall i | 0 <= i < |waiting| ensures Counted(oks', fails', Item(waiting[i], 0)) {
      assert Counted(oks, fails, Item(waiting[i], 0));
    }
    forall u | 0 <= u < |oks'|
      ensures Holds(queue', u) || u in waiting || Delivered(oks', fails', u) || Dropped(oks', fails', u)
    {
      if u != t && Holds(queue, u) {
        var i :| 0 <= i < |queue| && queue[i].ticket == u;
        assert queue'[if i < at then i else i - 1].ticket == u;
      }
    }
  }

  // ------------------------------------------- tasks and the queue

  lemma {:induction false} WaitingAppend(a: seq<Task>, b: seq<Task>)
    ensures Waiting(a + b) == Waiting(a) + Waiting(b)
  {
    if a == [] {
      assert a + b == b;
    } else {
      assert (a + b)[1..] == a[1..] + b;
      WaitingAppend(a[1..], b);
    }
  }

  lemma {:induction false} NoneWaiting(tasks: seq<Task>)
    requires forall k | 0 <= k < |tasks| :: OwnTicket(tasks[k].body) == []
    ensures Waiting(tasks) == []
  {
    if tasks != [] { NoneWaiting(tasks[1..]); }
  }

  lemma WaitingStep(task: Task, tasks: seq<Task>)
    ensures Waiting([task] + tasks) == OwnTicket(task.body) + Waiting(tasks)
  {
    hide OwnTicket;
    assert ([task] + tasks)[1..] == tasks;
  }

  lemma AroundOne<T>(q: seq<T>, k: nat)
    requires k < |q|
    ensures q == q[..k] + ([q[k]] + q[k + 1..])
  {
  }

  /** Only the first open task contributes before the later ones. */
  lemma WaitingFrom(tasks: seq<Task>, k: nat)
    requires k < |tasks| && forall j | 0 <= j < k :: tasks[j].body.Done?
    ensures Waiting(tasks) == OwnTicket(tasks[k].body) + Waiting(tasks[k + 1..])
  {
    hide Waiting;
    NoneWaiting(tasks[..k]);
    AroundOne(tasks, k);
    WaitingAppend(tasks[..k], [tasks[k]] + tasks[k + 1..]);
    WaitingStep(tasks[k], tasks[k + 1..]);
  }

  /** A started or starting task is the first open one. */
  lemma TurnIsFirstOpen(s: State, k: nat)
    requires LockInv(s) && k < |s.tasks|
    requires s.tasks[k].body.Active() || MayRead(s, k)
    ensures FirstOpen(s.tasks) == k
  {
    if MayRead(s, k) && k > 0 {
      assert s.tasks[k - 1].body.Done?;
    }
  }

  lemma FirstOpenIs(tasks: seq<Task>, k: nat)
    requires k <= |tasks| && forall j | 0 <= j < k :: tasks[j].body.Done?
    requires k < |tasks| ==> !tasks[k].body.Done?
    ensures FirstOpen(tasks) == k
  {
  }

  /** Chaining a waiting task behind the others changes neither the queue nor, but for an
      enqueue, who is pending. */
  lemma ChainKeepsLogical(s: State, b: Body)
    requires b.Waits()
    ensures Logical(Chain(s, b)) == Logical(s)
    ensures Waiting(Chain(s, b).tasks) == Waiting(s.tasks) + OwnTicket(b)
    ensures OwnTicket(b) == [] ==> Waiting(Chain(s, b).tasks) == Waiting(s.tasks)
  {
    var s' := Chain(s, b);
    FirstOpenIs(s'.tasks, FirstOpen(s.tasks));
    WaitingAppend(s.tasks, [Task(s.queueLock, b)]);
    assert Waiting([Task(s.queueLock, b)]) == OwnTicket(b) + Waiting([]);
  }

  lemma SettleKeepsWaiting(s: State, k: nat, b: Body)
    requires k < |s.tasks| && forall j | 0 <= j < k :: s.tasks[j].body.Done?
    ensures Waiting(Set(s, k, b).tasks) == OwnTicket(b) + Waiting(s.tasks[k + 1..])
    ensures OwnTicket(b) == [] ==> Waiting(Set(s, k, b).tasks) == Waiting(s.tasks[k + 1..])
    ensures Waiting(s.tasks) == OwnTicket(s.tasks[k].body) + Waiting(s.tasks[k + 1..])
  {
    WaitingFrom(s.tasks, k);
    WaitingFrom(Set(s, k, b).tasks, k);
    assert Set(s, k, b).tasks[k + 1..] == s.tasks[k + 1..];
  }

  /** The queue after one step of the first open task. */
  lemma LogicalAt(s: State, k: nat)
    requires k < |s.tasks| && forall j | 0 <= j < k :: s.tasks[j].body.Done?
    requires !s.tasks[k].body.Done?
    ensures var b := s.tasks[k].body;
            Logical(s) == if b.Posting? && |b.results| <= |b.queue| then b.remaining + b.queue[|b.results|..]
                          else s.stored
  {
    FirstOpenIs(s.tasks, k);
  }

  /** With the first k + 1 tasks settled no flush is posting. */
  lemma LogicalSettled(s: State, k: nat)
    requires k < |s.tasks| && forall j | 0 <= j <= k :: s.tasks[j].body.Done?
    requires forall j | k < j < |s.tasks| :: s.tasks[j].body.Waits() || s.tasks[j].body.Done?
    ensures Logical(s) == s.stored
  {
  }

  lemma CallEnqueueKeepsLedger(s: State)
    requires Inv(s) && Ledger(s)
    ensures Ledger(Next(s, CallEnqueue))
  {
    hide Books, Potential;
    var s', mid := Next(s, CallEnqueue), Chain(s, EnqueueWaits(|s.oks|));
    ChainKeepsLogical(s, EnqueueWaits(|s.oks|));
    assert s'.tasks == mid.tasks && s'.stored == mid.stored;
    assert Logical(s') == Logical(mid);
    BooksEnqueue(Logical(s), Waiting(s.tasks), s.oks, s.fails);
  }

  /** Steps that leave the queue as it stands and the enqueues under way alone. */
  ghost predicate SameQueue(s: State, s': State) {
    Logical(s') == Logical(s) && Waiting(s'.tasks) == Waiting(s.tasks)
    && s'.oks == s.oks && s'.fails == s.fails
  }

  lemma ReadMoves(s: State, k: nat)
    requires Inv(s) && MayRead(s, k)
    ensures SameQueue(s, Next(s, Read(k)))
  {
    hide Waiting, Logical, FirstOpen, BodyOk;
    var s' := Next(s, Read(k));
    TurnIsFirstOpen(s, k);
    SettleKeepsWaiting(s, k, s'.tasks[k].body);
    assert s' == Set(s, k, s'.tasks[k].body);
    LogicalAt(s, k);
    if s'.tasks[k].body.Done? {
      LogicalSettled(s', k);
    } else {
      LogicalAt(s', k);
      assert [] + s.stored[0..] == s.stored;
    }
  }

  lemma FlushWriteMoves(s: State, k: nat)
    requires Inv(s) && MayWrite(s, k) && s.tasks[k].body.Posting?
    ensures SameQueue(s, Next(s, Write(k)))
  {
    hide Waiting, Logical, FirstOpen, BodyOk;
    var s', b := Next(s, Write(k)), s.tasks[k].body;
    TurnIsFirstOpen(s, k);
    SettleKeepsWaiting(s, k, Written(b.remaining));
    assert s'.tasks == Set(s, k, Written(b.remaining)).tasks;
    LogicalAt(s, k);
    LogicalAt(s', k);
    assert b.remaining + b.queue[|b.results|..] == b.remaining;
  }

  lemma EnqueueWriteMoves(s: State, k: nat)
    requires Inv(s) && MayWrite(s, k) && s.tasks[k].body.EnqueueHasRead?
    ensures var s', t := Next(s, Write(k)), s.tasks[k].body.ticket;
            && Logical(s') == Logical(s) + [Item(t, 0)] && Waiting(s.tasks) == [t] + Waiting(s'.tasks)
            && s'.oks == s.oks && s'.fails == s.fails
  {
    assert BodyOk(s, s.tasks[k].body);
    hide Waiting, Logical, FirstOpen, BodyOk;
    var s' := Next(s, Write(k));
    TurnIsFirstOpen(s, k);
    SettleKeepsWaiting(s, k, Done(true));
    assert s'.tasks == Set(s, k, Done(true)).tasks;
    LogicalAt(s, k);
    LogicalSettled(s', k);
  }

  lemma ArmMoves(s: State, k: nat)
    requires Inv(s) && Enabled(s, Arm(k))
    ensures SameQueue(s, Next(s, Arm(k)))
  {
    hide Waiting, Logical, FirstOpen, BodyOk, BackoffMs;
    TurnIsFirstOpen(s, k);
    SettleKeepsWaiting(s, k, Done(false));
    LogicalAt(s, k);
    LogicalSettled(Next(s, Arm(k)), k);
  }

  lemma ContinueMoves(s: State, k: nat)
    requires Enabled(s, Continue(k))
    ensures SameQueue(s, Next(s, Continue(k)))
  {
    var mid := Set(s, k, Done(false));
    FirstOpenIs(mid.tasks, FirstOpen(s.tasks));
    WaitingSet(s.tasks, k, mid.tasks[k]);
    assert Logical(mid) == Logical(s);
    hide Waiting, Logical;
    ChainKeepsLogical(mid, FlushWaits);
  }

  lemma AlarmMoves(s: State)
    requires Enabled(s, AlarmFires)
    ensures SameQueue(s, Next(s, AlarmFires))
  {
    var mid := s.(alarm := None);
    assert Logical(mid) == Logical(s);
    hide Waiting, Logical;
    ChainKeepsLogical(mid, FlushWaits);
  }

  lemma WaitingSet(tasks: seq<Task>, k: nat, task: Task)
    requires k < |tasks| && OwnTicket(task.body) == OwnTicket(tasks[k].body)
    ensures Waiting(tasks[k := task]) == Waiting(tasks)
  {
    var a, b := tasks[..k], tasks[k + 1..];
    assert tasks == a + ([tasks[k]] + b) && tasks[k := task] == a + ([task] + b);
    WaitingAppend(a, [tasks[k]] + b);
    WaitingAppend(a, [task] + b);
    assert ([tasks[k]] + b)[1..] == b && ([task] + b)[1..] == b;
  }

  lemma PostKeepsLedger(s: State, k: nat, ok: bool)
    requires Enabled(s, Post(k, ok)) && MayPost(s, k) && Inv(s) && Ledger(s)
    ensures Ledger(Next(s, Post(k, ok)))
  {
    hide Books, Next, Logical, Waiting, Inv, Kept, PostRecorded;
    var s', b := Next(s, Post(k, ok)), s.tasks[k].body;
    PostMoves(s, k, ok);
    var n := |b.results|;
    BooksPost(b.remaining, b.queue[n], b.queue[n + 1..], ok, Waiting(s.tasks), s.oks, s.fails, s'.oks, s'.fails);
  }

  lemma PostShape(s: State, k: nat, ok: bool)
    requires MayPost(s, k) && Enabled(s, Post(k, ok))
    ensures var s', b := Next(s, Post(k, ok)), s.tasks[k].body;
            var item := b.queue[|b.results|];
            && k < |s'.tasks| && s'.tasks[k].body == Posting(b.queue, b.results + [ok], b.remaining + Kept(item, ok))
            && s'.tasks == Set(s, k, s'.tasks[k].body).tasks && s'.stored == s.stored
            && PostRecorded(s.oks, s.fails, item.ticket, ok, s'.oks, s'.fails)
  {
  }

  lemma HeadTail<T>(q: seq<T>, n: nat)
    requires n < |q|
    ensures q[n..] == [q[n]] + q[n + 1..]
  {
  }

  lemma LogicalAtPost(s: State, k: nat, queue: seq<Item>, n: nat, remaining: seq<Item>)
    requires k < |s.tasks| && forall j | 0 <= j < k :: s.tasks[j].body.Done?
    requires s.tasks[k].body.Posting? && s.tasks[k].body.queue == queue && |s.tasks[k].body.results| == n <= |queue|
    requires s.tasks[k].body.remaining == remaining
    ensures Logical(s) == remaining + queue[n..]
  {
    hide Logical;
    LogicalAt(s, k);
  }

  lemma EarlierDone(s: State, k: nat)
    requires Inv(s) && MayPost(s, k)
    ensures forall j | 0 <= j < k :: s.tasks[j].body.Done?
  {
    hide BodyOk, ItemsOk, LockInv;
    TurnIsFirstOpen(s, k);
  }

  lemma PostKeepsOthers(s: State, k: nat, ok: bool)
    requires Inv(s) && MayPost(s, k)
    ensures var s' := Next(s, Post(k, ok));
            && (forall j | 0 <= j < k :: s'.tasks[j].body.Done?)
            && Waiting(s'.tasks) == Waiting(s.tasks)
  {
    hide Waiting, Next, Kept, PostRecorded, BodyOk, ItemsOk, LockInv;
    PostShape(s, k, ok);
    EarlierDone(s, k);
    SettleKeepsWaiting(s, k, Next(s, Post(k, ok)).tasks[k].body);
  }

  /** What one post does to the queue as it stands and to the record. */
  lemma PostMoves(s: State, k: nat, ok: bool)
    requires Inv(s) && MayPost(s, k)
    ensures var s', b := Next(s, Post(k, ok)), s.tasks[k].body;
            var item, tail := b.queue[|b.results|], b.queue[|b.results| + 1..];
            && Logical(s) == b.remaining + [item] + tail
            && Logical(s') == b.remaining + Kept(item, ok) + tail
            && Waiting(s'.tasks) == Waiting(s.tasks)
            && PostRecorded(s.oks, s.fails, item.ticket, ok, s'.oks, s'.fails)
  {
    hide Kept, Waiting, Logical, Inv, Next, PostRecorded;
    var b := s.tasks[k].body;
    var n, item := |b.results|, b.queue[|b.results|];
    EarlierDone(s, k);
    PostShape(s, k, ok);
    PostKeepsOthers(s, k, ok);
    LogicalAtPost(s, k, b.queue, n, b.remaining);
    LogicalAtPost(Next(s, Post(k, ok)), k, b.queue, n + 1, b.remaining + Kept(item, ok));
    HeadTail(b.queue, n);
    Assoc(b.remaining, [item], b.queue[n + 1..]);
  }

  lemma LedgerHolds(s: State, step: Step)
    requires Inv(s) && Ledger(s) && Enabled(s, step) && Clean(step)
    ensures Ledger(Next(s, step))
  {
    hide Books, Potential, Waiting, Logical;
    match step
    case CallEnqueue => CallEnqueueKeepsLedger(s);
    case CallFlush => ChainKeepsLogical(s, FlushWaits);
    case Continue(k) => ContinueMoves(s, k);
    case AlarmFires => AlarmMoves(s);
    case Read(k) => ReadMoves(s, k);
    case Post(k, ok) => PostKeepsLedger(s, k, ok);
    case Write(k) =>
      if s.tasks[k].body.Posting? {
        FlushWriteMoves(s, k);
      } else {
        EnqueueWriteMoves(s, k);
        BooksStore(Logical(s), s.tasks[k].body.ticket, Waiting(Next(s, step).tasks), s.oks, s.fails);
      }
    case Arm(k) => ArmMoves(s, k);
  }

  // -------------------------------------------- something will run

  /** The task is a flush still to end, or has one to call. */
  predicate BringsFlush(b: Body) {
    b.FlushWaits? || b.Posting? || b.Written? || b == Done(true)
  }

  ghost predicate FlushComing(s: State) {
    exists k :: 0 <= k < |s.tasks| && BringsFlush(s.tasks[k].body)
  }

  /** While something is stored, a flush is pending or running, or the alarm is armed. */
  ghost predicate Covered(s: State) {
    s.stored == [] || s.alarm.Some? || FlushComing(s)
  }

  lemma ChainedFlushComes(s: State)
    ensures FlushComing(Chain(s, FlushWaits))
  {
    assert Chain(s, FlushWaits).tasks[|s.tasks|].body == FlushWaits;
  }

  lemma CoveredHolds(s: State, step: Step)
    requires Inv(s) && Covered(s) && Enabled(s, step) && Clean(step)
    ensures Covered(Next(s, step))
  {
    var s' := Next(s, step);
    match step
    case CallFlush => ChainedFlushComes(s);
    case Continue(k) => ChainedFlushComes(Set(s, k, Done(false)));
    case AlarmFires => ChainedFlushComes(s.(alarm := None));
    case CallEnqueue => StillComing(s, s', |s.tasks|);
    case Read(k) =>
      if s'.stored != [] {
        StillComing(s, s', k);
        if s.tasks[k].body.FlushWaits? { assert s'.tasks[k].body.Posting?; }
      }
    case Post(k, ok) => assert s'.tasks[k].body.Posting?;
    case Write(k) => assert s'.tasks[k].body.Written? || s'.tasks[k].body == Done(true);
    case Arm(k) => assert BodyOk(s, s.tasks[k].body);
  }

  /** A coming flush other than task k is still coming when only task k has moved. */
  lemma StillComing(s: State, s': State, k: nat)
    requires |s.tasks| <= |s'.tasks|
    requires forall j | 0 <= j < |s.tasks| && j != k :: s'.tasks[j] == s.tasks[j]
    ensures FlushComing(s)
        ==> FlushComing(s')
            || (k < |s.tasks| && BringsFlush(s.tasks[k].body))
  {
    if FlushComing(s) {
      var j :| 0 <= j < |s.tasks| && BringsFlush(s.tasks[j].body);
      if j != k { assert s'.tasks[j] == s.tasks[j]; }
    }
  }

  lemma {:induction false} CleanAfter(s: State, steps: seq<Step>)
    requires Inv(s) && Ledger(s) && Covered(s) && CanRun(s, steps)
    requires forall step | step in steps :: Clean(step)
    ensures var s' := After(s, steps); Inv(s') && Ledger(s') && Covered(s')
    decreases |steps|
  {
    if steps != [] {
      assert steps[0] in steps;
      InvHolds(s, steps[0]);
      LedgerHolds(s, steps[0]);
      CoveredHolds(s, steps[0]);
      CleanAfter(Next(s, steps[0]), steps[1..]);
    }
  }

  lemma InitIsInv()
    ensures Inv(INIT)
  {
  }

  lemma EmptyBooks()
    ensures Books([], [], [], [])
  {
  }

  lemma InitIsEmpty()
    ensures Logical(INIT) == [] && Waiting(INIT.tasks) == [] && INIT.oks == [] && INIT.fails == [] && INIT.stored == []
  {
    hide InOrder;
  }

  lemma InitIsClean()
    ensures Inv(INIT) && Ledger(INIT) && Covered(INIT)
  {
    hide Inv, Books, Logical, Waiting, INIT;
    InitIsInv();
    EmptyBooks();
    InitIsEmpty();
  }

  lemma CleanReachableInv(s: State)
    requires CleanReachable(s)
    ensures Inv(s) && Ledger(s) && Covered(s)
  {
    InitIsClean();
    hide Inv, Ledger, Covered, CanRun, After;
    var steps: seq<Step> :|
      CanRun(INIT, steps) && After(INIT, steps) == s && forall step | step in steps :: Clean(step);
    CleanAfter(INIT, steps);
  }

  lemma BooksSay(queue: seq<Item>, waiting: seq<nat>, oks: seq<nat>, fails: seq<nat>, t: nat)
    requires Books(queue, waiting, oks, fails) && t < |oks|
    ensures t in waiting ==> !Holds(queue, t) && oks[t] == 0 && fails[t] == 0
    ensures Holds(queue, t) ==> Item(t, fails[t]) in queue && oks[t] == 0 && fails[t] < MAX_ATTEMPTS
    ensures t !in waiting && !Holds(queue, t) <==> Delivered(oks, fails, t) || Dropped(oks, fails, t)
    ensures InOrder(queue, waiting)
  {
    if t in waiting {
      var j :| 0 <= j < |waiting| && waiting[j] == t;
      assert Counted(oks, fails, Item(waiting[j], 0));
    }
    if Holds(queue, t) {
      var i :| 0 <= i < |queue| && queue[i].ticket == t;
      assert Counted(oks, fails, queue[i]);
      assert queue[i] == Item(t, fails[t]);
    }
  }

  /** In crash-free runs every enqueued item is in exactly one place: not stored yet, queued
      with its failures so far as attempts, delivered by one post after at most five failures,
      or dropped after six; and the queue stays in enqueue order. */
  lemma EveryItemAccountedFor(s: State, t: nat)
    requires CleanReachable(s) && t < |s.oks|
    ensures |s.fails| == |s.oks|
    ensures t in Waiting(s.tasks) ==> !Holds(Logical(s), t) && s.oks[t] == 0 && s.fails[t] == 0
    ensures Holds(Logical(s), t) ==> Item(t, s.fails[t]) in Logical(s) && s.oks[t] == 0 && s.fails[t] < 6
    ensures t !in Waiting(s.tasks) && !Holds(Logical(s), t)
       <==> Delivered(s.oks, s.fails, t) || Dropped(s.oks, s.fails, t)
    ensures InOrder(Logical(s), Waiting(s.tasks))
  {
    CleanReachableInv(s);
    BooksSay(Logical(s), Waiting(s.tasks), s.oks, s.fails, t);
  }

  /** In crash-free runs a stored item always has a flush pending or running, or an alarm. */
  lemma NeverStranded(s: State)
    requires CleanReachable(s) && s.stored != []
    ensures s.alarm.Some? || FlushComing(s)
  {
    CleanReachableInv(s);
  }

  /** Nothing is stored or the alarm is armed; or, when it is not the worker that dies but one task
      whose storage call is rejected, another task brings a flush. */
  ghost predicate Excused(s: State, step: Step) {
    match step
    case Crash => s.stored == [] || s.alarm.Some?
    case Reject(k) =>
      s.stored == [] || s.alarm.Some? || exists j :: 0 <= j < |s.tasks| && j != k && BringsFlush(s.tasks[j].body)
    case _ => true
  }

  /** Every crash and every rejection of the run is excused. */
  ghost predicate AllExcused(s: State, steps: seq<Step>)
    requires CanRun(s, steps)
    decreases |steps|
  {
    steps == [] || (Excused(s, steps[0]) && AllExcused(Next(s, steps[0]), steps[1..]))
  }

  ghost predicate AlwaysCovered(s: State, steps: seq<Step>)
    requires CanRun(s, steps)
    decreases |steps|
  {
    Covered(s) && (steps == [] || AlwaysCovered(Next(s, steps[0]), steps[1..]))
  }

  /** Something is set to run all along a run, crashes and rejections included, exactly when no crash
      meets a stored item without an armed alarm, and no rejection one for which nothing else is set
      to run either. */
  lemma StrandedExactly(steps: seq<Step>)
    requires CanRun(INIT, steps)
    ensures AlwaysCovered(INIT, steps) <==> AllExcused(INIT, steps)
  {
    hide *;
    InitIsClean();
    CoveredAlongExactly(INIT, steps);
  }

  lemma {:induction false} CoveredAlongExactly(s: State, steps: seq<Step>)
    requires Inv(s) && Covered(s) && CanRun(s, steps)
    ensures AlwaysCovered(s, steps) <==> AllExcused(s, steps)
    decreases |steps|
  {
    if steps != [] {
      hide Covered, Excused, Inv, Next, Enabled;
      InvHolds(s, steps[0]);
      StepCoversExactly(s, steps[0]);
      if Covered(Next(s, steps[0])) {
        CoveredAlongExactly(Next(s, steps[0]), steps[1..]);
      } else {
        assert !AlwaysCovered(Next(s, steps[0]), steps[1..]);
      }
    }
  }

  lemma StepCoversExactly(s: State, step: Step)
    requires Inv(s) && Covered(s) && Enabled(s, step)
    ensures Covered(Next(s, step)) <==> Excused(s, step)
  {
    match step
    case Crash =>
    case Reject(k) => RejectUncovers(s, k);
    case _ => CoveredHolds(s, step);
  }

  /** A rejected task brings no flush any more; the others stay as they are. */
  lemma RejectUncovers(s: State, k: nat)
    requires Enabled(s, Reject(k))
    ensures Covered(Next(s, Reject(k))) <==> Excused(s, Reject(k))
  {
    var s' := Next(s, Reject(k));
    if j :| 0 <= j < |s.tasks| && j != k && BringsFlush(s.tasks[j].body) {
      assert BringsFlush(s'.tasks[j].body);
    }
    if j :| 0 <= j < |s'.tasks| && BringsFlush(s'.tasks[j].body) {
      assert j != k && BringsFlush(s.tasks[j].body);
    }
  }

  /** Whatever has happened, crashes and rejections included: after one more flush call, with no
      further ones, the worker is at rest only with an empty queue. */
  lemma OneFlushDrains(s: State, steps: seq<Step>)
    requires Reachable(s) && CanRun(Next(s, CallFlush), steps) && forall step | step in steps :: Clean(step)
    ensures Quiet(After(Next(s, CallFlush), steps)) ==> After(Next(s, CallFlush), steps).stored == []
  {
    ReachableInv(s);
    InvHolds(s, CallFlush);
    ChainedFlushComes(s);
    CoveredAfter(Next(s, CallFlush), steps);
    if Quiet(After(Next(s, CallFlush), steps)) {
      QuietIsEmpty(After(Next(s, CallFlush), steps));
    }
  }

  lemma {:induction false} CoveredAfter(s: State, steps: seq<Step>)
    requires Inv(s) && Covered(s) && CanRun(s, steps) && forall step | step in steps :: Clean(step)
    ensures Inv(After(s, steps)) && Covered(After(s, steps))
    decreases |steps|
  {
    if steps != [] {
      assert steps[0] in steps;
      InvHolds(s, steps[0]);
      CoveredHolds(s, steps[0]);
      hide Inv, Covered, Next, Enabled;
      CoveredAfter(Next(s, steps[0]), steps[1..]);
    }
  }

  // ---------------------------------------------- termination

  function Weight(b: Body): nat {
    match b
    case EnqueueWaits(_) => 5
    case EnqueueHasRead(_, _) => 4
    case FlushWaits => 2
    case Posting(queue, results, _) => if |results| < |queue| then 1 else 5
    case Written(_) => 4
    case Done(flushNext) => if flushNext then 3 else 0
  }

  function Weights(tasks: seq<Task>): nat {
    if tasks == [] then 0 else Weight(tasks[0].body) + Weights(tasks[1..])
  }

  /** Failures still to spend, five to one against the bookkeeping steps still to take. */
  function Measure(s: State): int {
    5 * (Potential(Logical(s)) + MAX_ATTEMPTS * |Waiting(s.tasks)|)
    + Weights(s.tasks) + if s.alarm.Some? then 3 else 0
  }

  lemma {:induction false} WeightsAppend(a: seq<Task>, b: seq<Task>)
    ensures Weights(a + b) == Weights(a) + Weights(b)
  {
    if a == [] {
      assert a + b == b;
    } else {
      assert (a + b)[1..] == a[1..] + b;
      WeightsAppend(a[1..], b);
    }
  }

  lemma WeightsSet(s: State, k: nat, b: Body)
    requires k < |s.tasks|
    ensures Weights(Set(s, k, b).tasks) == Weights(s.tasks) - Weight(s.tasks[k].body) + Weight(b)
  {
    var front, back := s.tasks[..k], s.tasks[k + 1..];
    var task := s.tasks[k].(body := b);
    assert s.tasks == front + ([s.tasks[k]] + back) && Set(s, k, b).tasks == front + ([task] + back);
    WeightsAppend(front, [s.tasks[k]] + back);
    WeightsAppend(front, [task] + back);
    assert ([s.tasks[k]] + back)[1..] == back && ([task] + back)[1..] == back;
  }

  lemma WeightsChain(s: State, b: Body)
    ensures Weights(Chain(s, b).tasks) == Weights(s.tasks) + Weight(b)
  {
    var task := Task(s.queueLock, b);
    WeightsAppend(s.tasks, [task]);
    assert [task][1..] == [];
  }

  /** Every step the worker takes on its own lowers the measure. */
  lemma InternalStepsLower(s: State, step: Step)
    requires Inv(s) && Enabled(s, step) && Internal(step)
    ensures Measure(Next(s, step)) < Measure(s)
  {
    hide Logical, Waiting, Weights, Potential, BackoffMs, BodyOk, Inv;
    match step
    case Continue(k) =>
      ContinueMoves(s, k);
      WeightsSet(s, k, Done(false));
      WeightsChain(Set(s, k, Done(false)), FlushWaits);
    case AlarmFires =>
      AlarmMoves(s);
      WeightsChain(s.(alarm := None), FlushWaits);
    case Read(k) =>
      ReadMoves(s, k);
      WeightsSet(s, k, Next(s, step).tasks[k].body);
    case Post(k, ok) => PostLowers(s, k, ok);
    case Write(k) => WriteLowers(s, k);
    case Arm(k) =>
      ArmMoves(s, k);
      WeightsSet(s, k, Done(false));
  }

  lemma PostLowers(s: State, k: nat, ok: bool)
    requires Inv(s) && MayPost(s, k)
    ensures Measure(Next(s, Post(k, ok))) < Measure(s)
  {
    var s', b := Next(s, Post(k, ok)), s.tasks[k].body;
    assert BodyOk(s, b);
    var n := |b.results|;
    var item, tail := b.queue[n], b.queue[n + 1..];
    hide Logical, Waiting, Weights, Potential, Inv, Kept;
    PostMoves(s, k, ok);
    assert s'.tasks == Set(s, k, s'.tasks[k].body).tasks && s'.alarm == s.alarm;
    WeightsSet(s, k, s'.tasks[k].body);
    PostLowersPotential(b.remaining, item, tail, ok);
  }

  lemma PostLowersPotential(kept: seq<Item>, item: Item, tail: seq<Item>, ok: bool)
    requires item.attempts < MAX_ATTEMPTS
    ensures Potential(kept + Kept(item, ok) + tail) < Potential(kept + [item] + tail)
  {
    PotentialAppend(kept + [item], tail);
    PotentialAppend(kept + Kept(item, ok), tail);
    PotentialAppend(kept, Kept(item, ok));
    PotentialSnoc(kept, item);
    KeptPotential(item, ok);
  }

  lemma WriteLowers(s: State, k: nat)
    requires Inv(s) && MayWrite(s, k)
    ensures Measure(Next(s, Write(k))) < Measure(s)
  {
    hide Logical, Waiting, Weights, Potential, BodyOk, Inv;
    var s', b := Next(s, Write(k)), s.tasks[k].body;
    assert s'.tasks == Set(s, k, s'.tasks[k].body).tasks && s'.alarm == s.alarm;
    WeightsSet(s, k, s'.tasks[k].body);
    if b.Posting? {
      FlushWriteMoves(s, k);
    } else {
      EnqueueWriteMoves(s, k);
      PotentialSnoc(Logical(s), Item(b.ticket, 0));
    }
  }

  lemma LogicalItemsOk(s: State)
    requires Inv(s)
    ensures ItemsOk(Logical(s), s.fails)
  {
    var k := FirstOpen(s.tasks);
    if k < |s.tasks| && s.tasks[k].body.Posting? {
      var b := s.tasks[k].body;
      assert BodyOk(s, b);
      var n := |b.results|;
      RemainingOk(b.queue[..n], b.results, s.fails);
    }
  }

  lemma MeasureIsNat(s: State)
    requires Inv(s)
    ensures Measure(s) >= 0
  {
    LogicalItemsOk(s);
    hide Inv, Logical;
    PotentialBounds(Logical(s));
  }

  /** From any state of any run, crashes and rejections included, the worker's own steps come to an
      end, however they interleave and however the posts go. */
  lemma {:induction false} InternalRunsEnd(s: State, steps: seq<Step>)
    requires Inv(s) && CanRun(s, steps) && forall step | step in steps :: Internal(step)
    ensures |steps| <= Measure(s)
    decreases |steps|
  {
    if steps == [] {
      MeasureIsNat(s);
    } else {
      var step := steps[0];
      assert step in steps;
      InvHolds(s, step);
      InternalStepsLower(s, step);
      hide Inv, Measure, Next, Enabled;
      InternalRunsEnd(Next(s, step), steps[1..]);
    }
  }

  /** Some task can always move while one has not settled. */
  lemma OpenTaskMoves(s: State)
    requires Inv(s) && FirstOpen(s.tasks) < |s.tasks|
    ensures !Quiet(s)
  {
    var k := FirstOpen(s.tasks);
    var b := s.tasks[k].body;
    assert BodyOk(s, b);
    assert s.tasks[k].prev == (k as int) - 1;
    var step :=
      if b.Waits() then Read(k)
      else if b.Posting? && |b.results| < |b.queue| then Post(k, true)
      else if b.Written? then Arm(k)
      else Write(k);
    assert Internal(step) && Enabled(s, step);
  }

  lemma QuietIsSettled(s: State)
    requires Inv(s) && Quiet(s)
    ensures s.alarm.None? && forall k | 0 <= k < |s.tasks| :: s.tasks[k].body == Done(false)
  {
    if FirstOpen(s.tasks) < |s.tasks| {
      OpenTaskMoves(s);
    }
    assert !Enabled(s, AlarmFires);
    forall k | 0 <= k < |s.tasks| ensures s.tasks[k].body == Done(false) {
      assert !Enabled(s, Continue(k));
    }
  }

  lemma QuietIsEmpty(s: State)
    requires Inv(s) && Covered(s) && Quiet(s)
    ensures s.stored == []
  {
    QuietIsSettled(s);
  }

  /** When a crash-free run has nothing more to do, the queue is empty and every enqueued
      item has been delivered once or dropped after six failures. */
  lemma QuietMeansDelivered(s: State)
    requires CleanReachable(s) && Quiet(s)
    ensures s.stored == [] && |s.fails| == |s.oks|
    ensures forall t | 0 <= t < |s.oks| :: Delivered(s.oks, s.fails, t) || Dropped(s.oks, s.fails, t)
  {
    CleanReachableInv(s);
    QuietIsSettled(s);
    QuietIsEmpty(s);
    NoneWaiting(s.tasks);
    hide Inv, Quiet, Covered, InOrder;
  }
}
