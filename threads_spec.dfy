/**
  The task-pool bookkeeping of the pthreads tasking layer, as values.

  Each step the runtime performs while holding the threading lock is a
  function from one `Sched` to the next.  The pool of pending tasks is a
  singly linked FIFO over an arena of entries; `queue` is the order of the
  entries reachable from the pool's head (the `Scheduler` class keeps the head
  and tail pointers and this sequence as ghost state).  The task lists of
  `cobegin` statements are circular lists over a second arena.
*/
module ThreadsSpec {
  import opened Wrappers

  type EntryId = nat
  type NodeId = nat

  /** A task-pool entry: the task, its serial flag, the task-list node it
      belongs to (if any), whether some thread has begun it, and the link. */
  datatype PoolEntry = PoolEntry(fun: nat, arg: nat, serial: bool, taskList: Option<NodeId>, begun: bool, next: Option<EntryId>)

  /** A task-list node of a `cobegin`: the task, whether it completed, the
      next node of the cycle, and its pool entry once it is enqueued. */
  datatype ListNode = ListNode(fun: nat, arg: nat, completed: bool, next: NodeId, poolEntry: Option<EntryId>)

  /** The state guarded by the threading lock. */
  datatype Sched = Sched(
    entries: seq<PoolEntry>,
    queue: seq<EntryId>,
    nodes: seq<ListNode>,
    threads: int,
    running: int,
    waking: int,
    warningIssued: bool)

  /** Every queued entry is inside the arena.  (No entry is queued twice:
      `Chain` gives every entry but the last a successor.) */
  predicate QueueOk(entries: seq<PoolEntry>, q: seq<EntryId>) {
    forall k :: 0 <= k < |q| ==> q[k] < |entries|
  }

  /** The links of the entries in `q` spell out `q`, and the last one ends the list. */
  predicate Chain(entries: seq<PoolEntry>, q: seq<EntryId>)
    requires QueueOk(entries, q)
  {
    && (forall k {:trigger entries[q[k]]} :: 0 <= k < |q| - 1 ==> entries[q[k]].next == Some(q[k + 1]))
    && (q != [] ==> entries[q[|q| - 1]].next == None)
  }

  /** Every task-list and pool-entry reference stays inside its arena. */
  predicate Refs(entries: seq<PoolEntry>, nodes: seq<ListNode>) {
    && (forall e :: 0 <= e < |entries| && entries[e].taskList.Some? ==> entries[e].taskList.value < |nodes|)
    && (forall n :: 0 <= n < |nodes| ==> nodes[n].next < |nodes|)
    && (forall n :: 0 <= n < |nodes| && nodes[n].poolEntry.Some? ==> nodes[n].poolEntry.value < |entries|)
  }

  predicate RefsOk(s: Sched) {
    Refs(s.entries, s.nodes)
  }

  /** No counter is negative and the running and waking threads are among the created ones. */
  predicate CountersOk(s: Sched) {
    0 <= s.running && 0 <= s.waking && s.running + s.waking <= s.threads
  }

  predicate PoolShape(entries: seq<PoolEntry>, q: seq<EntryId>, nodes: seq<ListNode>) {
    QueueOk(entries, q) && Chain(entries, q) && Refs(entries, nodes)
  }

  predicate PoolOk(s: Sched) {
    PoolShape(s.entries, s.queue, s.nodes)
  }

  predicate SchedOk(s: Sched) {
    PoolOk(s) && CountersOk(s)
  }

  /** No step ever clears a `begun` flag or frees an arena slot. */
  predicate BegunMonotone(s: Sched, r: Sched) {
    && |s.entries| <= |r.entries|
    && forall e :: 0 <= e < |s.entries| && s.entries[e].begun ==> r.entries[e].begun
  }

  function MarkBegun(entries: seq<PoolEntry>, e: EntryId): seq<PoolEntry>
    requires e < |entries|
  {
    entries[e := entries[e].(begun := true)]
  }

  /** The position of the first entry of `q`, from position `i` on, that no
      thread has begun; `|q|` when there is none. */
  function FirstPending(entries: seq<PoolEntry>, q: seq<EntryId>, i: nat): (d: nat)
    requires QueueOk(entries, q) && i <= |q|
    ensures i <= d <= |q|
    ensures forall k {:trigger entries[q[k]]} :: i <= k < d ==> entries[q[k]].begun
    ensures d < |q| ==> !entries[q[d]].begun
    decreases |q| - i
  {
    if i == |q| || !entries[q[i]].begun then i else FirstPending(entries, q, i + 1)
  }

  /** A suffix of a chained queue is a chained queue. */
  lemma SuffixOk(entries: seq<PoolEntry>, q: seq<EntryId>, d: nat)
    requires QueueOk(entries, q) && Chain(entries, q) && d <= |q|
    ensures QueueOk(entries, q[d..]) && Chain(entries, q[d..])
  {
    var r := q[d..];
    forall k | 0 <= k < |r| - 1
      ensures entries[r[k]].next == Some(r[k + 1])
    {
      assert r[k] == q[d + k] && r[k + 1] == q[d + k + 1];
    }
  }

  /** Marking an entry begun keeps every link. */
  lemma MarkBegunOk(entries: seq<PoolEntry>, q: seq<EntryId>, e: EntryId)
    requires QueueOk(entries, q) && Chain(entries, q) && e < |entries|
    ensures QueueOk(MarkBegun(entries, e), q) && Chain(MarkBegun(entries, e), q)
  {
  }

  /** Marking an entry begun, in place, keeps the pool sound. */
  lemma MarkBegunKeepsPool(s: Sched, e: EntryId)
    requires PoolOk(s) && e < |s.entries|
    ensures PoolOk(s.(entries := MarkBegun(s.entries, e)))
  {
    MarkBegunOk(s.entries, s.queue, e);
    var es := MarkBegun(s.entries, e);
    assert forall e' :: 0 <= e' < |es| ==> es[e'].taskList == s.entries[e'].taskList;
  }

  /** Dropping a prefix of the queue keeps the pool sound. */
  lemma DropOk(s: Sched, d: nat)
    requires PoolOk(s) && d <= |s.queue|
    ensures PoolOk(s.(queue := s.queue[d..]))
  {
    SuffixOk(s.entries, s.queue, d);
  }

  /** `skip_over_begun_tasks`: the begun entries at the head of the queue are unlinked. */
  function SkipSpec(s: Sched): (r: Sched)
    requires QueueOk(s.entries, s.queue)
    ensures QueueOk(r.entries, r.queue)
  {
    s.(queue := s.queue[FirstPending(s.entries, s.queue, 0)..])
  }

  /** Skipping drops a prefix of the queue made of begun entries and stops at
      the first entry not begun; nothing else changes. */
  lemma SkipOutcome(s: Sched)
    requires QueueOk(s.entries, s.queue)
    ensures var r := SkipSpec(s); var d := |s.queue| - |r.queue|;
      && 0 <= d && r.queue == s.queue[d..]
      && (forall k {:trigger s.entries[s.queue[k]]} :: 0 <= k < d ==> s.entries[s.queue[k]].begun)
      && (r.queue != [] ==> !r.entries[r.queue[0]].begun)
      && r == s.(queue := r.queue)
  {
  }

  lemma SkipKeepsPool(s: Sched)
    requires PoolOk(s)
    ensures PoolOk(SkipSpec(s))
  {
    DropOk(s, FirstPending(s.entries, s.queue, 0));
  }

  /** The head entry of the queue is marked begun and unlinked. */
  function TakeHead(s: Sched): (r: Sched)
    requires QueueOk(s.entries, s.queue) && s.queue != []
    ensures QueueOk(r.entries, r.queue)
  {
    s.(queue := s.queue[1..], entries := MarkBegun(s.entries, s.queue[0]))
  }

  /** Taking the head keeps the pool sound and begins the head entry. */
  lemma TakeHeadKeepsPool(s: Sched)
    requires PoolOk(s) && s.queue != []
    ensures var r := TakeHead(s);
      PoolOk(r) && BegunMonotone(s, r) && r.entries[s.queue[0]].begun && r.queue == s.queue[1..]
  {
    SuffixOk(s.entries, s.queue, 1);
    MarkBegunOk(s.entries, s.queue[1..], s.queue[0]);
    var es := MarkBegun(s.entries, s.queue[0]);
    assert forall e :: 0 <= e < |es| ==> es[e].taskList == s.entries[e].taskList;
  }

  // ---------------------------------------------------------------------
  // Adding to the pool
  // ---------------------------------------------------------------------

  /** Two entries that agree on everything but the link. */
  predicate SameButNext(x: PoolEntry, y: PoolEntry) {
    x.fun == y.fun && x.arg == y.arg && x.serial == y.serial && x.taskList == y.taskList && x.begun == y.begun
  }

  /** Two task-list nodes that agree on everything but the pool entry. */
  predicate SameButEntry(x: ListNode, y: ListNode) {
    x.fun == y.fun && x.arg == y.arg && x.completed == y.completed && x.next == y.next
  }

  /** The counters and the warning flag are the same. */
  predicate SameCounters(s: Sched, r: Sched) {
    r.threads == s.threads && r.running == s.running && r.waking == s.waking && r.warningIssued == s.warningIssued
  }

  /** The tail entry, if any, is inside the arena. */
  predicate TailOk(s: Sched) {
    s.queue == [] || s.queue[|s.queue| - 1] < |s.entries|
  }

  /** `add_to_task_pool`: a fresh entry, not begun and without a successor,
      linked after the tail. */
  function AddSpec(s: Sched, fun: nat, arg: nat, serial: bool, taskList: Option<NodeId>): (r: Sched)
    requires TailOk(s)
    ensures r.queue == s.queue + [|s.entries|] && TailOk(r)
    ensures |r.entries| == |s.entries| + 1
    ensures r.nodes == s.nodes && SameCounters(s, r)
  {
    var id := |s.entries|;
    var added := PoolEntry(fun, arg, serial, taskList, false, None);
    var linked := if s.queue == [] then s.entries
                  else s.entries[s.queue[|s.queue| - 1] := s.entries[s.queue[|s.queue| - 1]].(next := Some(id))];
    s.(entries := linked + [added], queue := s.queue + [id])
  }

  /** The new entry is the last one of the arena and of the queue; the old
      tail now links to it, and no other entry changes. */
  lemma AddOutcomes(s: Sched, fun: nat, arg: nat, serial: bool, taskList: Option<NodeId>)
    requires TailOk(s)
    ensures var r := AddSpec(s, fun, arg, serial, taskList);
      && r.entries[|s.entries|] == PoolEntry(fun, arg, serial, taskList, false, None)
      && (forall e :: 0 <= e < |s.entries| ==> SameButNext(r.entries[e], s.entries[e]))
      && (forall e :: 0 <= e < |s.entries| && (s.queue == [] || e != s.queue[|s.queue| - 1]) ==> r.entries[e] == s.entries[e])
      && (s.queue != [] ==> r.entries[s.queue[|s.queue| - 1]].next == Some(|s.entries|))
  {
  }

  /** Appending keeps the pool sound: the earlier entries keep their order,
      the new one is last, and no begun flag changes. */
  lemma AddKeepsPool(s: Sched, fun: nat, arg: nat, serial: bool, taskList: Option<NodeId>)
    requires PoolOk(s) && (taskList.Some? ==> taskList.value < |s.nodes|)
    ensures PoolOk(AddSpec(s, fun, arg, serial, taskList))
    ensures BegunMonotone(s, AddSpec(s, fun, arg, serial, taskList))
  {
    AddOutcomes(s, fun, arg, serial, taskList);
    var r := AddSpec(s, fun, arg, serial, taskList);
    var q := s.queue;
    forall k | 0 <= k < |r.queue| - 1
      ensures r.entries[r.queue[k]].next == Some(r.queue[k + 1])
    {
      assert r.queue[k] == q[k];
      if k < |q| - 1 {
        assert s.entries[q[k]].next == Some(q[k + 1]);
      }
    }
  }

  // ---------------------------------------------------------------------
  // Admission: waking idle threads and launching new ones
  // ---------------------------------------------------------------------

  /** How many idle threads `schedule_next_task` wakes for `howMany` tasks:
      as many as it can, up to `howMany`. */
  function WakeCount(threads: int, running: int, waking: int, howMany: int): (w: int)
    requires howMany >= 0
    ensures 0 <= w <= howMany
    ensures running + waking <= threads ==> running + waking + w <= threads
    ensures w < howMany ==> running + waking + w >= threads
  {
    if threads > running + waking then
      var idle := threads - running - waking;
      if idle >= howMany then howMany else idle
    else 0
  }

  /** The part of `launch_next_task` after the begun entries are skipped:
      the head, if any, is launched in a new thread, or the warning is issued. */
  function LaunchHeadSpec(t: Sched, created: bool): (r: Sched)
    requires QueueOk(t.entries, t.queue)
    ensures QueueOk(r.entries, r.queue)
  {
    if t.queue == [] then t
    else if !created then t.(warningIssued := true)
    else TakeHead(t.(threads := t.threads + 1, running := t.running + 1))
  }

  /** `launch_next_task`, where `created` says whether creating a thread succeeds. */
  function LaunchSpec(s: Sched, created: bool): (r: Sched)
    requires QueueOk(s.entries, s.queue)
    ensures QueueOk(r.entries, r.queue)
  {
    if s.warningIssued then s else LaunchHeadSpec(SkipSpec(s), created)
  }

  /** After one failure nothing changes any more; a launch happens exactly
      when creation succeeds and a pending entry is left after skipping the
      begun ones, and then the thread and running counts each rise by one and
      that entry, not begun before, is begun and popped. */
  lemma LaunchOutcomes(s: Sched, created: bool)
    requires QueueOk(s.entries, s.queue)
    ensures var r, d := LaunchSpec(s, created), FirstPending(s.entries, s.queue, 0);
      && (s.warningIssued ==> r == s)
      && r.threads - s.threads == r.running - s.running
      && (r.threads == s.threads + 1 <==> !s.warningIssued && created && d < |s.queue|)
      && (r.threads == s.threads || r.threads == s.threads + 1)
      && (r.warningIssued <==> s.warningIssued || (!created && d < |s.queue|))
      && (r.threads == s.threads + 1 ==>
            && r.queue == s.queue[d + 1..] && !s.entries[s.queue[d]].begun
            && r.entries == MarkBegun(s.entries, s.queue[d]))
      && (r.threads == s.threads ==> r.entries == s.entries)
      && (!s.warningIssued && r.threads == s.threads ==> r.queue == s.queue[d..])
      && r.nodes == s.nodes && r.waking == s.waking
      && BegunMonotone(s, r)
  {
    var d := FirstPending(s.entries, s.queue, 0);
    var t := SkipSpec(s);
    if t.queue != [] {
      assert t.queue[0] == s.queue[d] && t.queue[1..] == s.queue[d + 1..];
    }
  }

  lemma LaunchKeepsPool(s: Sched, created: bool)
    requires PoolOk(s)
    ensures PoolOk(LaunchSpec(s, created))
  {
    if !s.warningIssued {
      SkipKeepsPool(s);
      var t := SkipSpec(s);
      if t.queue != [] && created {
        TakeHeadKeepsPool(t.(threads := t.threads + 1, running := t.running + 1));
      }
    }
  }

  /** Thread creation is still allowed with `threads` threads created. */
  predicate MayLaunch(maxThreads: int, threads: int) {
    maxThreads == 0 || threads + 1 < maxThreads
  }

  /** The launch loop of `schedule_next_task` for `n` remaining tasks; the
      outcome of each thread creation is `canCreate` of the thread count. */
  function LaunchLoop(s: Sched, n: nat, maxThreads: int, canCreate: int -> bool): Sched
    requires QueueOk(s.entries, s.queue)
    decreases n
  {
    if n == 0 || !MayLaunch(maxThreads, s.threads) then s
    else
      LaunchLoop(LaunchSpec(s, canCreate(s.threads)), n - 1, maxThreads, canCreate)
  }

  /** The launch loop keeps the pool sound and never un-begins an entry. */
  lemma {:induction false} LaunchLoopPool(s: Sched, n: nat, maxThreads: int, canCreate: int -> bool)
    requires PoolOk(s)
    ensures var r := LaunchLoop(s, n, maxThreads, canCreate);
      PoolOk(r) && BegunMonotone(s, r) && r.nodes == s.nodes
    decreases n
  {
    if n != 0 && MayLaunch(maxThreads, s.threads) {
      var r := LaunchSpec(s, canCreate(s.threads));
      LaunchKeepsPool(s, canCreate(s.threads));
      LaunchOutcomes(s, canCreate(s.threads));
      LaunchLoopPool(r, n - 1, maxThreads, canCreate);
      assert LaunchLoop(s, n, maxThreads, canCreate) == LaunchLoop(r, n - 1, maxThreads, canCreate);
    }
  }

  /** The launch loop makes at most one thread per remaining task, each one
      running, never reaches `maxThreads` by creating, and keeps the counters sound. */
  lemma {:induction false} LaunchLoopBounds(s: Sched, n: nat, maxThreads: int, canCreate: int -> bool)
    requires QueueOk(s.entries, s.queue)
    ensures var r := LaunchLoop(s, n, maxThreads, canCreate);
      && s.threads <= r.threads <= s.threads + n
      && r.threads - s.threads == r.running - s.running
      && r.waking == s.waking
      && (CountersOk(s) ==> CountersOk(r))
      && (maxThreads != 0 && r.threads != s.threads ==> r.threads < maxThreads)
    decreases n
  {
    if n != 0 && MayLaunch(maxThreads, s.threads) {
      var r := LaunchSpec(s, canCreate(s.threads));
      LaunchOutcomes(s, canCreate(s.threads));
      LaunchLoopBounds(r, n - 1, maxThreads, canCreate);
      assert LaunchLoop(s, n, maxThreads, canCreate) == LaunchLoop(r, n - 1, maxThreads, canCreate);
    }
  }

  /** The waking half of `schedule_next_task`: idle threads are woken for as
      many of the `howMany` tasks as they can serve. */
  function WakeSpec(s: Sched, howMany: nat): Sched {
    s.(waking := s.waking + WakeCount(s.threads, s.running, s.waking, howMany))
  }

  /** The tasks no woken thread serves. */
  function Leftover(s: Sched, howMany: nat): nat {
    howMany - WakeCount(s.threads, s.running, s.waking, howMany)
  }

  /** `schedule_next_task`: wake idle threads, then try to launch one thread
      for each task still unserved. */
  function ScheduleSpec(s: Sched, howMany: nat, maxThreads: int, canCreate: int -> bool): Sched
    requires QueueOk(s.entries, s.queue)
  {
    LaunchLoop(WakeSpec(s, howMany), Leftover(s, howMany), maxThreads, canCreate)
  }

  /** Scheduling keeps `threads >= running + waking`; it wakes exactly the
      idle threads it can use, up to `howMany`, and creates at most one thread
      for each task not served by a woken one. */
  lemma ScheduleKeepsCounters(s: Sched, howMany: nat, maxThreads: int, canCreate: int -> bool)
    requires SchedOk(s)
    ensures var r, w := ScheduleSpec(s, howMany, maxThreads, canCreate), WakeCount(s.threads, s.running, s.waking, howMany);
      && SchedOk(r)
      && r.waking == s.waking + w
      && s.threads <= r.threads <= s.threads + (howMany - w)
      && (maxThreads != 0 && r.threads != s.threads ==> r.threads < maxThreads)
      && BegunMonotone(s, r) && r.nodes == s.nodes
  {
    var t := WakeSpec(s, howMany);
    assert PoolOk(t) && CountersOk(t);
    LaunchLoopPool(t, Leftover(s, howMany), maxThreads, canCreate);
    LaunchLoopBounds(t, Leftover(s, howMany), maxThreads, canCreate);
  }

  // ---------------------------------------------------------------------
  // Workers
  // ---------------------------------------------------------------------

  /** The result of a claim step: the new state and the entry claimed, if any. */
  datatype Claim = Claim(sched: Sched, entry: Option<EntryId>)

  /** The part of a worker's claim after the begun entries are skipped: the
      head, if any, is taken; the worker starts running and uses up a wake-up. */
  function ClaimHeadSpec(t: Sched): (r: Claim)
    requires QueueOk(t.entries, t.queue)
  {
    if t.queue == [] then Claim(t, None)
    else
      var u := t.(waking := if t.waking > 0 then t.waking - 1 else t.waking, running := t.running + 1);
      Claim(TakeHead(u), Some(t.queue[0]))
  }

  /** A worker's claim of the first pending entry, after skipping begun ones;
      with none left it claims nothing (and waits). */
  function WorkerClaimSpec(s: Sched): (r: Claim)
    requires QueueOk(s.entries, s.queue)
  {
    ClaimHeadSpec(SkipSpec(s))
  }

  /** A worker claims an entry exactly when one not begun is left after the
      begun ones are skipped; it claims the first such entry, begins it and
      unlinks it with the skipped ones, starts running and, if threads were
      being woken, uses up one wake-up.  With nothing to claim the queue is
      emptied. */
  lemma WorkerClaimOutcomes(s: Sched)
    requires QueueOk(s.entries, s.queue)
    ensures var r, d := WorkerClaimSpec(s), FirstPending(s.entries, s.queue, 0);
      && (r.entry.Some? <==> d < |s.queue|)
      && (r.entry.Some? ==>
            var e := r.entry.value;
            && e == s.queue[d]
            && !s.entries[e].begun && r.sched.entries == MarkBegun(s.entries, e)
            && r.sched.queue == s.queue[d + 1..]
            && r.sched.running == s.running + 1
            && r.sched.waking == (if s.waking > 0 then s.waking - 1 else s.waking))
      && (r.entry.None? ==> r.sched == s.(queue := []))
      && r.sched.threads == s.threads && r.sched.nodes == s.nodes
      && BegunMonotone(s, r.sched)
  {
    var d := FirstPending(s.entries, s.queue, 0);
    var t := SkipSpec(s);
    if t.queue != [] {
      assert t.queue[0] == s.queue[d] && t.queue[1..] == s.queue[d + 1..];
    } else {
      assert t == s.(queue := []);
    }
  }

  /** A claim by an idle worker (one not counted as running) keeps the state
      sound: in particular the waking count never goes negative. */
  lemma WorkerClaimKeepsOk(s: Sched)
    requires SchedOk(s) && (s.waking > 0 || s.running < s.threads)
    ensures SchedOk(WorkerClaimSpec(s).sched)
  {
    SkipKeepsPool(s);
    var t := SkipSpec(s);
    if t.queue != [] {
      TakeHeadKeepsPool(t.(waking := if t.waking > 0 then t.waking - 1 else t.waking, running := t.running + 1));
    }
  }

  /** A worker finishing entry `e`: its task-list node (if any) is marked
      completed and the running count drops. */
  function WorkerFinishSpec(s: Sched, e: EntryId): (r: Sched)
    requires RefsOk(s) && e < |s.entries|
    ensures r.entries == s.entries && r.queue == s.queue && r.running == s.running - 1
    ensures |r.nodes| == |s.nodes|
    ensures forall n :: 0 <= n < |s.nodes| ==>
      r.nodes[n] == if s.entries[e].taskList == Some(n) then s.nodes[n].(completed := true) else s.nodes[n]
    ensures SchedOk(s) && s.running > 0 ==> SchedOk(r)
  {
    var r := s.(running := s.running - 1);
    match s.entries[e].taskList
    case None => r
    case Some(n) => r.(nodes := s.nodes[n := s.nodes[n].(completed := true)])
  }

  // ---------------------------------------------------------------------
  // Joining a cobegin
  // ---------------------------------------------------------------------

  /** The joiner's step on task-list node `n`: nothing if the task completed;
      otherwise, if a worker has begun its pool entry, the entry is detached
      from the list, and if not, the joiner claims it and will run it. */
  function JoinSpec(s: Sched, n: NodeId): (r: Claim)
    requires RefsOk(s) && n < |s.nodes| && s.nodes[n].poolEntry.Some?
    ensures r.sched.nodes == s.nodes && |r.sched.entries| == |s.entries|
  {
    var e := s.nodes[n].poolEntry.value;
    if s.nodes[n].completed then Claim(s, None)
    else if s.entries[e].begun then Claim(s.(entries := s.entries[e := s.entries[e].(taskList := None)]), None)
    else Claim(s.(entries := MarkBegun(s.entries, e), waking := if s.waking > 0 then s.waking - 1 else s.waking), Some(e))
  }

  /** A completed task leaves everything alone; an entry a worker has begun
      is detached from its node; otherwise the joiner claims the entry, which
      was not begun and now is, and uses up a wake-up if threads were being
      woken.  The queue, the nodes and the thread counts never change. */
  lemma JoinOutcomes(s: Sched, n: NodeId)
    requires RefsOk(s) && n < |s.nodes| && s.nodes[n].poolEntry.Some?
    ensures var r, e := JoinSpec(s, n), s.nodes[n].poolEntry.value;
      && (s.nodes[n].completed ==> r == Claim(s, None))
      && (!s.nodes[n].completed && s.entries[e].begun ==>
            r == Claim(s.(entries := s.entries[e := s.entries[e].(taskList := None)]), None))
      && (!s.nodes[n].completed && !s.entries[e].begun ==>
            && r.entry == Some(e)
            && r.sched.entries == MarkBegun(s.entries, e)
            && r.sched.waking == (if s.waking > 0 then s.waking - 1 else s.waking))
      && (r.entry.Some? ==> !s.entries[r.entry.value].begun && r.sched.entries[r.entry.value].begun)
      && r.sched.queue == s.queue && r.sched.nodes == s.nodes
      && r.sched.threads == s.threads && r.sched.running == s.running
      && BegunMonotone(s, r.sched)
  {
  }

  /** The joiner's step keeps the state sound. */
  lemma JoinSpecKeepsOk(s: Sched, n: NodeId)
    requires SchedOk(s) && n < |s.nodes| && s.nodes[n].poolEntry.Some?
    ensures SchedOk(JoinSpec(s, n).sched)
  {
    var e := s.nodes[n].poolEntry.value;
    if !s.nodes[n].completed {
      MarkBegunKeepsPool(s, e);
      var es := s.entries[e := s.entries[e].(taskList := None)];
      assert forall i :: 0 <= i < |es| ==> es[i].next == s.entries[i].next && (es[i].taskList.Some? ==> es[i].taskList == s.entries[i].taskList);
    }
  }

  /** No pool entry is claimed twice: once claimed (by a worker, a launch or
      the joiner) an entry is begun, begun entries stay begun, and neither a
      worker nor the joiner claims a begun entry. */
  lemma ClaimedOnce(s: Sched, e: EntryId, n: NodeId)
    requires PoolOk(s) && e < |s.entries| && s.entries[e].begun
    ensures WorkerClaimSpec(s).entry != Some(e)
    ensures n < |s.nodes| && s.nodes[n].poolEntry.Some? ==> JoinSpec(s, n).entry != Some(e)
  {
    WorkerClaimOutcomes(s);
    if n < |s.nodes| && s.nodes[n].poolEntry.Some? {
      JoinOutcomes(s, n);
    }
  }

  // ---------------------------------------------------------------------
  // Task lists
  // ---------------------------------------------------------------------

  /** `elems` is a circular list of nodes in FIFO order whose handle, its
      last node, occurs only once: a walk from the first node stops at the
      handle exactly at the end. */
  predicate Ring(nodes: seq<ListNode>, elems: seq<NodeId>) {
    && |elems| > 0
    && (forall k :: 0 <= k < |elems| ==> elems[k] < |nodes|)
    && (forall k :: 0 <= k < |elems| - 1 ==> elems[k] != elems[|elems| - 1])
    && (forall k {:trigger nodes[elems[k]]} :: 0 <= k < |elems| - 1 ==> nodes[elems[k]].next == elems[k + 1])
    && nodes[elems[|elems| - 1]].next == elems[0]
  }

  /** Walking a ring: the successor of each node is the next one, the last
      node's is the first, and the handle is reached only at the end. */
  lemma RingWalk(nodes: seq<ListNode>, elems: seq<NodeId>, j: nat)
    requires Ring(nodes, elems) && j < |elems|
    ensures elems[j] < |nodes|
    ensures elems[j] == elems[|elems| - 1] <==> j == |elems| - 1
    ensures nodes[elems[j]].next == if j == |elems| - 1 then elems[0] else elems[j + 1]
  {
  }

  /** `elems` is a circular list of distinct nodes in FIFO order; the handle is its last node. */
  predicate Cycle(nodes: seq<ListNode>, elems: seq<NodeId>) {
    Ring(nodes, elems) && forall k, k' :: 0 <= k < k' < |elems| ==> elems[k] != elems[k']
  }

  /** Two nodes of a ring at positions `k < k'` differ: were they equal,
      their successors would be too, and walking on would reach the handle
      from `k` before the end. */
  lemma {:induction false} RingNoRepeat(nodes: seq<ListNode>, elems: seq<NodeId>, k: nat, k': nat)
    requires Ring(nodes, elems) && k < k' < |elems|
    ensures elems[k] != elems[k']
    decreases |elems| - k'
  {
    if k' < |elems| - 1 {
      RingNoRepeat(nodes, elems, k + 1, k' + 1);
      RingWalk(nodes, elems, k);
      RingWalk(nodes, elems, k');
    }
  }

  /** A ring whose handle occurs once is a cycle of distinct nodes. */
  lemma RingIsCycle(nodes: seq<ListNode>, elems: seq<NodeId>)
    requires Ring(nodes, elems)
    ensures Cycle(nodes, elems)
  {
    forall k, k' | 0 <= k < k' < |elems|
      ensures elems[k] != elems[k']
    {
      RingNoRepeat(nodes, elems, k, k');
    }
  }

  /** `chpl_add_to_task_list`: the new node goes after the handle (the last
      node), points at the first node, and becomes the handle. */
  function AddToListSpec(nodes: seq<ListNode>, handle: Option<NodeId>, fun: nat, arg: nat): (r: seq<ListNode>)
    requires handle.Some? ==> handle.value < |nodes|
    ensures |r| == |nodes| + 1
    ensures r[|nodes|].fun == fun && r[|nodes|].arg == arg && !r[|nodes|].completed
  {
    var id := |nodes|;
    match handle
    case None => nodes + [ListNode(fun, arg, false, id, None)]
    case Some(h) => nodes[h := nodes[h].(next := id)] + [ListNode(fun, arg, false, nodes[h].next, None)]
  }

  /** Adding to an empty list makes a one-node cycle; adding to a cycle
      appends to it, and no other node changes. */
  lemma AddToListKeepsCycle(nodes: seq<ListNode>, handle: Option<NodeId>, elems: seq<NodeId>, fun: nat, arg: nat)
    requires handle.None? ==> elems == []
    requires handle.Some? ==> Cycle(nodes, elems) && handle.value == elems[|elems| - 1]
    ensures Cycle(AddToListSpec(nodes, handle, fun, arg), elems + [|nodes|])
    ensures forall n :: 0 <= n < |nodes| && n !in elems ==> AddToListSpec(nodes, handle, fun, arg)[n] == nodes[n]
  {
    var r := AddToListSpec(nodes, handle, fun, arg);
    var es := elems + [|nodes|];
    if handle.Some? {
      forall k | 0 <= k < |es| - 1
        ensures r[es[k]].next == es[k + 1]
      {
        if k < |elems| - 1 {
          assert es[k] != elems[|elems| - 1];
        }
      }
    }
  }

  /** A new task-list node refers only to nodes inside the arena. */
  lemma AddToListKeepsRefs(entries: seq<PoolEntry>, nodes: seq<ListNode>, handle: Option<NodeId>, fun: nat, arg: nat)
    requires Refs(entries, nodes) && (handle.Some? ==> handle.value < |nodes|)
    ensures Refs(entries, AddToListSpec(nodes, handle, fun, arg))
  {
  }

  /** The serial path of `chpl_process_task_list` runs the tasks in list order. */
  function ListOrder(nodes: seq<ListNode>, elems: seq<NodeId>): seq<nat>
  {
    seq(|elems|, k requires 0 <= k < |elems| => if elems[k] < |nodes| then nodes[elems[k]].fun else 0)
  }

  /** Enqueueing the task of node `n`: a pool entry linked to the node and back. */
  function EnqueueOne(s: Sched, n: NodeId): (r: Sched)
    requires TailOk(s) && n < |s.nodes|
    ensures TailOk(r) && |r.nodes| == |s.nodes|
    ensures |r.entries| == |s.entries| + 1 && r.queue == s.queue + [|s.entries|]
    ensures SameCounters(s, r)
  {
    var a := AddSpec(s, s.nodes[n].fun, s.nodes[n].arg, false, Some(n));
    a.(nodes := a.nodes[n := a.nodes[n].(poolEntry := Some(|s.entries|))])
  }

  /** The new entry holds the node's task and points back at the node, which
      now points at it; no entry or node changes otherwise except in its links. */
  lemma EnqueueOneOutcomes(s: Sched, n: NodeId)
    requires TailOk(s) && n < |s.nodes|
    ensures var r := EnqueueOne(s, n);
      && r.entries[|s.entries|] == PoolEntry(s.nodes[n].fun, s.nodes[n].arg, false, Some(n), false, None)
      && (forall e :: 0 <= e < |s.entries| ==> SameButNext(r.entries[e], s.entries[e]))
      && (forall m :: 0 <= m < |s.nodes| ==> SameButEntry(r.nodes[m], s.nodes[m]))
      && (forall m :: 0 <= m < |s.nodes| && m != n ==> r.nodes[m] == s.nodes[m])
      && r.nodes[n].poolEntry == Some(|s.entries|)
  {
    AddOutcomes(s, s.nodes[n].fun, s.nodes[n].arg, false, Some(n));
  }

  lemma EnqueueOneKeepsPool(s: Sched, n: NodeId)
    requires PoolOk(s) && n < |s.nodes|
    ensures PoolOk(EnqueueOne(s, n)) && BegunMonotone(s, EnqueueOne(s, n))
  {
    AddKeepsPool(s, s.nodes[n].fun, s.nodes[n].arg, false, Some(n));
  }

  /** Enqueueing the tasks of the first `k` nodes of `ns`, in order. */
  function EnqueueFirst(s: Sched, ns: seq<NodeId>, k: nat): (r: Sched)
    requires TailOk(s) && InArena(s.nodes, ns) && k <= |ns|
    ensures TailOk(r) && |r.nodes| == |s.nodes| && |r.entries| == |s.entries| + k
    ensures SameCounters(s, r)
  {
    if k == 0 then s else EnqueueOne(EnqueueFirst(s, ns, k - 1), ns[k - 1])
  }

  /** One more step of the enqueue loop. */
  lemma EnqueueFirstStep(s: Sched, ns: seq<NodeId>, k: nat)
    requires TailOk(s) && InArena(s.nodes, ns) && k < |ns|
    ensures EnqueueFirst(s, ns, k + 1) == EnqueueOne(EnqueueFirst(s, ns, k), ns[k])
  {
  }

  /** Every node of `ns` is inside the arena. */
  predicate InArena(nodes: seq<ListNode>, ns: seq<NodeId>) {
    forall i :: 0 <= i < |ns| ==> ns[i] < |nodes|
  }

  /** Enqueueing a group keeps the pool sound. */
  lemma {:induction false} EnqueueFirstKeepsPool(s: Sched, ns: seq<NodeId>, k: nat)
    requires PoolOk(s) && InArena(s.nodes, ns) && k <= |ns|
    ensures PoolOk(EnqueueFirst(s, ns, k)) && BegunMonotone(s, EnqueueFirst(s, ns, k))
  {
    if k != 0 {
      EnqueueFirstKeepsPool(s, ns, k - 1);
      EnqueueOneKeepsPool(EnqueueFirst(s, ns, k - 1), ns[k - 1]);
    }
  }

  /** The group's entries join the tail of the pool in list order; the
      entries already queued keep their places. */
  lemma {:induction false} EnqueueFirstQueue(s: Sched, ns: seq<NodeId>, k: nat)
    requires TailOk(s) && InArena(s.nodes, ns) && k <= |ns|
    ensures var r := EnqueueFirst(s, ns, k);
      && |r.queue| == |s.queue| + k
      && forall i :: 0 <= i < |r.queue| ==>
           r.queue[i] == if i < |s.queue| then s.queue[i] else |s.entries| + (i - |s.queue|)
  {
    if k != 0 {
      EnqueueFirstQueue(s, ns, k - 1);
    }
  }

  /** Enqueueing changes no older entry and no node except in its links. */
  lemma {:induction false} EnqueueFirstKeeps(s: Sched, ns: seq<NodeId>, k: nat)
    requires TailOk(s) && InArena(s.nodes, ns) && k <= |ns|
    ensures var r := EnqueueFirst(s, ns, k);
      && (forall e :: 0 <= e < |s.entries| ==> SameButNext(r.entries[e], s.entries[e]))
      && (forall j :: 0 <= j < |s.nodes| ==> SameButEntry(r.nodes[j], s.nodes[j]))
  {
    if k != 0 {
      EnqueueFirstKeeps(s, ns, k - 1);
      var m := EnqueueFirst(s, ns, k - 1);
      var r := EnqueueOne(m, ns[k - 1]);
      EnqueueOneOutcomes(m, ns[k - 1]);
      forall e | 0 <= e < |s.entries|
        ensures SameButNext(r.entries[e], s.entries[e])
      {
        assert SameButNext(r.entries[e], m.entries[e]);
      }
      forall j | 0 <= j < |s.nodes|
        ensures SameButEntry(r.nodes[j], s.nodes[j])
      {
        assert SameButEntry(r.nodes[j], m.nodes[j]);
      }
    }
  }

  /** Entry `|s.entries| + j` holds the task of node `ns[j]`, is neither
      begun nor serial, and points back at the node. */
  lemma {:induction false} EnqueueFirstEntry(s: Sched, ns: seq<NodeId>, k: nat, j: nat)
    requires TailOk(s) && InArena(s.nodes, ns) && j < k <= |ns|
    ensures var n := ns[j];
      SameButNext(EnqueueFirst(s, ns, k).entries[|s.entries| + j], PoolEntry(s.nodes[n].fun, s.nodes[n].arg, false, Some(n), false, None))
  {
    var m := EnqueueFirst(s, ns, k - 1);
    var n := ns[k - 1];
    var r := EnqueueOne(m, n);
    EnqueueOneOutcomes(m, n);
    if j < k - 1 {
      EnqueueFirstEntry(s, ns, k - 1, j);
      assert SameButNext(r.entries[|s.entries| + j], m.entries[|s.entries| + j]);
    } else {
      assert r.entries[|m.entries|] == PoolEntry(m.nodes[n].fun, m.nodes[n].arg, false, Some(n), false, None);
      EnqueueFirstKeeps(s, ns, k - 1);
      assert m.nodes[n].fun == s.nodes[n].fun && m.nodes[n].arg == s.nodes[n].arg;
    }
  }

  /** With distinct nodes, each node ends up pointing at its own new entry. */
  lemma {:induction false} EnqueueFirstLinks(s: Sched, ns: seq<NodeId>, k: nat, j: nat)
    requires TailOk(s) && InArena(s.nodes, ns) && j < k <= |ns|
    requires forall i, i' :: 0 <= i < i' < |ns| ==> ns[i] != ns[i']
    ensures EnqueueFirst(s, ns, k).nodes[ns[j]].poolEntry == Some(|s.entries| + j)
  {
    EnqueueOneOutcomes(EnqueueFirst(s, ns, k - 1), ns[k - 1]);
    if j < k - 1 {
      EnqueueFirstLinks(s, ns, k - 1, j);
    }
  }

  /** Every node of `elems` after the first points at its own entry, the
      `j`-th node at entry `base + j - 1`. */
  predicate EntryLinks(nodes: seq<ListNode>, elems: seq<NodeId>, base: nat) {
    forall j :: 0 < j < |elems| ==> elems[j] < |nodes| && nodes[elems[j]].poolEntry == Some(base + j - 1)
  }

  /** Enqueueing every node of a ring after the first links the `j`-th
      node to the `j`-th new entry: the ring's nodes are distinct. */
  lemma RingEnqueueLinks(s: Sched, elems: seq<NodeId>)
    requires TailOk(s) && Ring(s.nodes, elems) && |elems| >= 2
    ensures InArena(s.nodes, elems[1..])
    ensures EntryLinks(EnqueueFirst(s, elems[1..], |elems| - 1).nodes, elems, |s.entries|)
  {
    var rest := elems[1..];
    assert InArena(s.nodes, rest);
    RingIsCycle(s.nodes, elems);
    forall j | 0 < j < |elems|
      ensures EnqueueFirst(s, rest, |rest|).nodes[elems[j]].poolEntry == Some(|s.entries| + j - 1)
    {
      assert rest[j - 1] == elems[j];
      EnqueueFirstLinks(s, rest, |rest|, j - 1);
    }
  }

  /** The result of the joiner's steps: the new state and the entries it claimed. */
  datatype Claims = Claims(sched: Sched, claimed: seq<EntryId>)

  /** Every node of `ns` is inside the arena and has a pool entry. */
  predicate AllEnqueued(nodes: seq<ListNode>, ns: seq<NodeId>) {
    forall i :: 0 <= i < |ns| ==> ns[i] < |nodes| && nodes[ns[i]].poolEntry.Some?
  }

  /** The joiner's steps over the first `k` nodes of `ns`, with the entries it claimed. */
  function JoinFirst(s: Sched, ns: seq<NodeId>, k: nat): (r: Claims)
    requires RefsOk(s) && AllEnqueued(s.nodes, ns) && k <= |ns|
    ensures r.sched.nodes == s.nodes && RefsOk(r.sched)
    ensures |r.sched.entries| == |s.entries|
  {
    if k == 0 then Claims(s, [])
    else
      var m := JoinFirst(s, ns, k - 1);
      var c := JoinSpec(m.sched, ns[k - 1]);
      Claims(c.sched, m.claimed + match c.entry case Some(e) => [e] case None => [])
  }

  /** One more step of the join loop. */
  lemma JoinFirstStep(s: Sched, ns: seq<NodeId>, k: nat)
    requires RefsOk(s) && AllEnqueued(s.nodes, ns) && k < |ns|
    ensures var m, c := JoinFirst(s, ns, k), JoinSpec(JoinFirst(s, ns, k).sched, ns[k]);
      JoinFirst(s, ns, k + 1) == Claims(c.sched, m.claimed + match c.entry case Some(e) => [e] case None => [])
  {
  }

  /** The joiner's steps keep the state sound. */
  lemma {:induction false} JoinFirstKeepsOk(s: Sched, ns: seq<NodeId>, k: nat)
    requires SchedOk(s) && AllEnqueued(s.nodes, ns) && k <= |ns|
    ensures SchedOk(JoinFirst(s, ns, k).sched)
  {
    if k != 0 {
      JoinFirstKeepsOk(s, ns, k - 1);
      JoinSpecKeepsOk(JoinFirst(s, ns, k - 1).sched, ns[k - 1]);
    }
  }

  /** After the joiner has passed a node, its task either completed or had
      its pool entry begun -- by a worker or by the joiner itself. */
  lemma {:induction false} JoinFirstSettles(s: Sched, ns: seq<NodeId>, k: nat, j: nat)
    requires RefsOk(s) && AllEnqueued(s.nodes, ns) && j < k <= |ns|
    ensures var r := JoinFirst(s, ns, k).sched;
      s.nodes[ns[j]].completed || r.entries[s.nodes[ns[j]].poolEntry.value].begun
  {
    JoinOutcomes(JoinFirst(s, ns, k - 1).sched, ns[k - 1]);
    if j < k - 1 {
      JoinFirstSettles(s, ns, k - 1, j);
    }
  }
}
