/**
  The pthreads tasking layer's scheduler state as an object.

  The fields are the globals the runtime guards with its threading lock: the
  arena of task-pool entries with the pool's head and tail pointers, the three
  thread counters, the sticky thread-creation warning, and the arena of
  task-list nodes.  The ghost `queue` is the order of the entries reachable
  from the head.  Each method is one critical section, proved equal to the
  corresponding step function of `ThreadsSpec` on the snapshot `Snap()`.
*/
module Threads {
  import opened Wrappers
  import opened ThreadsSpec

  type ThreadId = nat

  /** The per-thread serial flags behind `chpl_get_serial`/`chpl_set_serial`:
      a thread without a flag reads as not serial. */
  class SerialFlags {
    var flags: map<ThreadId, bool>

    constructor ()
      ensures flags == map[]
    {
      flags := map[];
    }

    function Get(t: ThreadId): bool
      reads this
    {
      if t in flags then flags[t] else false
    }

    /** Setting a flag: an absent flag is created only to hold `true`. */
    method Set(t: ThreadId, state: bool)
      modifies this
      ensures Get(t) == state
      ensures forall u :: u != t ==> Get(u) == old(Get(u))
      ensures t in old(flags) || state ==> flags == old(flags)[t := state]
      ensures t !in old(flags) && !state ==> flags == old(flags)
    {
      if t !in flags {
        if state {
          flags := flags[t := state];
        }
      } else {
        flags := flags[t := state];
      }
    }
  }

  class Scheduler {
    var entries: seq<PoolEntry>
    var head: Option<EntryId>
    var tail: Option<EntryId>
    ghost var queue: seq<EntryId>
    var nodes: seq<ListNode>
    var threadsCnt: int
    var runningCnt: int
    var wakingCnt: int
    var warningIssued: bool
    const maxThreads: int

    ghost function Snap(): Sched
      reads this
    {
      Sched(entries, queue, nodes, threadsCnt, runningCnt, wakingCnt, warningIssued)
    }

    /** The pool is sound and the head and tail pointers are the ends of the queue. */
    ghost predicate Linked()
      reads this`entries, this`queue, this`nodes, this`head, this`tail
    {
      && PoolShape(entries, queue, nodes)
      && head == (if queue == [] then None else Some(queue[0]))
      && tail == (if queue == [] then None else Some(queue[|queue| - 1]))
    }

    ghost predicate Valid()
      reads this
    {
      Linked() && 0 <= runningCnt && 0 <= wakingCnt && runningCnt + wakingCnt <= threadsCnt
    }

    /** `initChplThreads`: no thread, an empty pool, no warning yet. */
    constructor (maxThreads: int)
      ensures Valid() && this.maxThreads == maxThreads
      ensures Snap() == Sched([], [], [], 0, 0, 0, false)
      ensures head == None && tail == None
    {
      entries := [];
      head := None;
      tail := None;
      queue := [];
      nodes := [];
      threadsCnt := 0;
      runningCnt := 0;
      wakingCnt := 0;
      warningIssued := false;
      this.maxThreads := maxThreads;
    }

    /** Unlinks the head entry; the tail is cleared when the pool empties. */
    method PopHead()
      requires Linked() && head.Some?
      modifies this`head, this`tail, this`queue
      ensures Linked()
      ensures queue == old(queue)[1..]
    {
      ghost var s := Snap();
      head := entries[head.value].next;
      if head.None? {
        tail := None;
      }
      queue := queue[1..];
      DropOk(s, 1);
    }

    /** `skip_over_begun_tasks`: pops the begun entries at the head of the pool. */
    method SkipOverBegunTasks()
      requires Linked()
      modifies this`head, this`tail, this`queue
      ensures Linked()
      ensures Snap() == SkipSpec(old(Snap()))
    {
      ghost var q0 := queue;
      ghost var i := 0;
      while head.Some? && entries[head.value].begun
        invariant Linked() && i <= |q0| && queue == q0[i..]
        invariant FirstPending(entries, q0, i) == FirstPending(entries, q0, 0)
        decreases |queue|
      {
        PopHead();
        assert q0[i..][1..] == q0[i + 1..];
        i := i + 1;
      }
    }

    /** Marks the head entry begun and unlinks it. */
    method TakeHeadTask()
      requires Linked() && head.Some?
      modifies this`entries, this`head, this`tail, this`queue
      ensures Linked()
      ensures Snap() == TakeHead(old(Snap()))
    {
      MarkBegunKeepsPool(Snap(), head.value);
      entries := MarkBegun(entries, head.value);
      PopHead();
    }

    /** `add_to_task_pool`: a new entry, not begun, linked after the tail. */
    method AddToTaskPool(fun: nat, arg: nat, serial: bool, taskList: Option<NodeId>) returns (id: EntryId)
      requires Valid() && (taskList.Some? ==> taskList.value < |nodes|)
      modifies this
      ensures Valid() && head.Some? && tail == Some(id)
      ensures id == old(|entries|)
      ensures Snap() == AddSpec(old(Snap()), fun, arg, serial, taskList)
    {
      ghost var s := Snap();
      id := |entries|;
      if tail.Some? {
        entries := entries[tail.value := entries[tail.value].(next := Some(id))];
      } else {
        head := Some(id);
      }
      entries := entries + [PoolEntry(fun, arg, serial, taskList, false, None)];
      tail := Some(id);
      queue := queue + [id];
      AddKeepsPool(s, fun, arg, serial, taskList);
    }

    /** `launch_next_task`, where `created` says whether creating a thread
        would succeed. */
    method LaunchNextTask(created: bool)
      requires Linked()
      modifies this
      ensures Linked()
      ensures Snap() == LaunchSpec(old(Snap()), created)
    {
      if warningIssued {
        return;
      }
      SkipOverBegunTasks();
      LaunchHead(created);
    }

    /** The rest of `launch_next_task` once the begun entries are skipped. */
    method LaunchHead(created: bool)
      requires Linked()
      modifies this
      ensures Linked()
      ensures Snap() == LaunchHeadSpec(old(Snap()), created)
    {
      if head.Some? {
        if !created {
          warningIssued := true;
        } else {
          threadsCnt := threadsCnt + 1;
          runningCnt := runningCnt + 1;
          TakeHeadTask();
        }
      }
    }

    /** The waking half of `schedule_next_task`: idle threads are woken for
        as many of the `howMany` tasks as they can serve; `n` are left over. */
    method WakeIdle(howMany: nat) returns (n: nat)
      requires Valid()
      modifies this`wakingCnt
      ensures Valid()
      ensures Snap() == WakeSpec(old(Snap()), howMany)
      ensures n == Leftover(old(Snap()), howMany)
    {
      n := howMany;
      if threadsCnt > runningCnt + wakingCnt {
        var idle := threadsCnt - runningCnt - wakingCnt;
        if idle >= n {
          wakingCnt := wakingCnt + n;
          n := 0;
        } else {
          wakingCnt := wakingCnt + idle;
          n := n - idle;
        }
      }
    }

    /** The launching half of `schedule_next_task`: one launch per remaining
        task while the thread limit allows. */
    method LaunchUpTo(n: nat, canCreate: int -> bool)
      requires Linked()
      modifies this
      ensures Linked()
      ensures Snap() == LaunchLoop(old(Snap()), n, maxThreads, canCreate)
    {
      ghost var s := Snap();
      var left := n;
      while left != 0 && MayLaunch(maxThreads, threadsCnt)
        invariant Linked()
        invariant LaunchLoop(Snap(), left, maxThreads, canCreate) == LaunchLoop(s, n, maxThreads, canCreate)
        decreases left
      {
        LaunchNextTask(canCreate(threadsCnt));
        left := left - 1;
      }
    }

    /** `schedule_next_task`: wakes idle threads, then launches one thread per
        task left over while the thread limit allows. */
    method ScheduleNextTask(howMany: nat, canCreate: int -> bool)
      requires Valid()
      modifies this
      ensures Valid()
      ensures Snap() == ScheduleSpec(old(Snap()), howMany, maxThreads, canCreate)
    {
      ghost var s := Snap();
      var n := WakeIdle(howMany);
      LaunchUpTo(n, canCreate);
      ScheduleKeepsCounters(s, howMany, maxThreads, canCreate);
    }

    /** The claim step of `chpl_begin_helper` by an idle worker: skip the
        begun entries, then take the head, if any, as the worker's next task. */
    method WorkerClaim() returns (claimed: Option<EntryId>)
      requires Valid() && (wakingCnt > 0 || runningCnt < threadsCnt)
      modifies this
      ensures Valid()
      ensures Claim(Snap(), claimed) == WorkerClaimSpec(old(Snap()))
    {
      WorkerClaimKeepsOk(Snap());
      SkipOverBegunTasks();
      claimed := ClaimHead();
    }

    /** The rest of the claim step once the begun entries are skipped. */
    method ClaimHead() returns (claimed: Option<EntryId>)
      requires Linked()
      modifies this
      ensures Linked()
      ensures Claim(Snap(), claimed) == ClaimHeadSpec(old(Snap()))
    {
      if head.None? {
        claimed := None;
        return;
      }
      if wakingCnt > 0 {
        wakingCnt := wakingCnt - 1;
      }
      runningCnt := runningCnt + 1;
      claimed := head;
      TakeHeadTask();
    }

    /** The end of a task in `chpl_begin_helper`: its task-list node, if any,
        is marked completed and the worker stops counting as running. */
    method WorkerFinish(e: EntryId)
      requires Valid() && e < |entries| && runningCnt > 0
      modifies this
      ensures Valid()
      ensures Snap() == WorkerFinishSpec(old(Snap()), e)
    {
      match entries[e].taskList {
        case Some(n) =>
          nodes := nodes[n := nodes[n].(completed := true)];
        case None =>
      }
      runningCnt := runningCnt - 1;
    }

    /** `chpl_begin`: run inline when the thread is serial (unless told to
        ignore that), otherwise enqueue the task and schedule one thread. */
    method Begin(flags: SerialFlags, t: ThreadId, fun: nat, arg: nat, ignoreSerial: bool, serialState: bool,
                 canCreate: int -> bool) returns (inline: bool)
      requires Valid()
      modifies this
      ensures Valid()
      ensures inline <==> !ignoreSerial && flags.Get(t)
      ensures inline ==> Snap() == old(Snap())
      ensures !inline ==> Snap() == ScheduleSpec(AddSpec(old(Snap()), fun, arg, serialState, None), 1, maxThreads, canCreate)
    {
      inline := !ignoreSerial && flags.Get(t);
      if !inline {
        ghost var s := Snap();
        var _ := AddToTaskPool(fun, arg, serialState, None);
        AddKeepsPool(s, fun, arg, serialState, None);
        ScheduleNextTask(1, canCreate);
      }
    }

    /** `chpl_add_to_task_list`: the new node becomes the handle of the cycle. */
    method AddToTaskList(fun: nat, arg: nat, handle: Option<NodeId>) returns (newHandle: NodeId)
      requires Valid() && (handle.Some? ==> handle.value < |nodes|)
      modifies this
      ensures Valid() && newHandle == old(|nodes|)
      ensures nodes == AddToListSpec(old(nodes), handle, fun, arg)
      ensures Snap() == old(Snap()).(nodes := nodes)
    {
      AddToListKeepsRefs(entries, nodes, handle, fun, arg);
      newHandle := |nodes|;
      match handle {
        case None =>
          nodes := nodes + [ListNode(fun, arg, false, newHandle, None)];
        case Some(h) =>
          var first := nodes[h].next;
          nodes := nodes[h := nodes[h].(next := newHandle)] + [ListNode(fun, arg, false, first, None)];
      }
    }

    /** The serial path of `chpl_process_task_list`: the tasks from the first
        node round to the handle, in order. */
    method RunSerially(handle: NodeId, ghost elems: seq<NodeId>) returns (order: seq<nat>)
      requires Ring(nodes, elems) && |elems| >= 2 && handle == elems[|elems| - 1]
      ensures order == ListOrder(nodes, elems)
    {
      RingWalk(nodes, elems, |elems| - 1);
      var task := nodes[handle].next;
      order := [nodes[task].fun];
      ghost var k := 0;
      while task != handle
        invariant 0 <= k < |elems| && task == elems[k]
        invariant order == ListOrder(nodes, elems[..k + 1])
        decreases |elems| - k
      {
        RingWalk(nodes, elems, k);
        task := nodes[task].next;
        k := k + 1;
        order := order + [nodes[task].fun];
      }
      RingWalk(nodes, elems, k);
      assert elems[..k + 1] == elems;
    }

    /** Enqueueing task-list node `n`: a pool entry for its task, linked back. */
    method EnqueueNode(n: NodeId)
      requires Valid() && n < |nodes|
      modifies this
      ensures Valid()
      ensures Snap() == EnqueueOne(old(Snap()), n)
      ensures forall j :: 0 <= j < |nodes| ==> nodes[j].next == old(nodes[j].next)
    {
      ghost var s := Snap();
      EnqueueOneKeepsPool(s, n);
      EnqueueOneOutcomes(s, n);
      var e := AddToTaskPool(nodes[n].fun, nodes[n].arg, false, Some(n));
      nodes := nodes[n := nodes[n].(poolEntry := Some(e))];
    }

    /** The enqueue loop of `chpl_process_task_list`: every node after the
        first one, up to the handle, gets a pool entry, in list order. */
    method EnqueueGroup(handle: NodeId, ghost elems: seq<NodeId>) returns (first: NodeId, taskCnt: nat)
      requires Valid() && Ring(nodes, elems) && |elems| >= 2 && handle == elems[|elems| - 1]
      modifies this
      ensures Valid() && first == elems[0] && taskCnt == |elems| - 1
      ensures InArena(old(nodes), elems[1..])
      ensures Snap() == EnqueueFirst(old(Snap()), elems[1..], |elems| - 1)
      ensures EntryLinks(nodes, elems, |old(entries)|)
    {
      ghost var s0 := Snap();
      ghost var rest := elems[1..];
      assert |rest| == |elems| - 1;
      assert InArena(s0.nodes, rest);
      RingEnqueueLinks(s0, elems);
      ghost var links := EnqueueFirst(s0, rest, |rest|).nodes;
      RingWalk(nodes, elems, |elems| - 1);
      first := nodes[handle].next;
      RingWalk(nodes, elems, 0);
      var task := nodes[first].next;
      taskCnt := 0;
      var done := false;
      while !done
        invariant taskCnt <= |rest|
        invariant done <==> taskCnt == |rest|
        invariant !done ==> task == elems[taskCnt + 1]
        invariant Valid() && Snap() == EnqueueFirst(s0, rest, taskCnt)
        decreases |rest| - taskCnt
      {
        RingWalk(s0.nodes, elems, taskCnt + 1);
        EnqueueFirstKeeps(s0, rest, taskCnt);
        var next := nodes[task].next;
        done := task == handle;
        EnqueueFirstStep(s0, rest, taskCnt);
        EnqueueNode(task);
        task := next;
        taskCnt := taskCnt + 1;
      }
      assert nodes == links;
    }

    /** The joiner's critical section on node `n`: nothing once the task
        completed; detach the entry if a worker began it; else claim it. */
    method JoinStep(n: NodeId) returns (run: Option<EntryId>)
      requires Valid() && n < |nodes| && nodes[n].poolEntry.Some?
      modifies this
      ensures Valid()
      ensures Claim(Snap(), run) == JoinSpec(old(Snap()), n)
    {
      JoinSpecKeepsOk(Snap(), n);
      var e := nodes[n].poolEntry.value;
      run := None;
      if !nodes[n].completed {
        if entries[e].begun {
          entries := entries[e := entries[e].(taskList := None)];
        } else {
          run := Some(e);
          entries := MarkBegun(entries, e);
          if wakingCnt > 0 {
            wakingCnt := wakingCnt - 1;
          }
        }
      }
    }

    /** The join loop of `chpl_process_task_list` over the nodes after the first. */
    method JoinRest(handle: NodeId, ghost elems: seq<NodeId>) returns (claimed: seq<EntryId>)
      requires Valid() && Ring(nodes, elems) && |elems| >= 2 && handle == elems[|elems| - 1]
      requires AllEnqueued(nodes, elems[1..])
      modifies this
      ensures Valid()
      ensures Claims(Snap(), claimed) == JoinFirst(old(Snap()), elems[1..], |elems| - 1)
    {
      ghost var s0 := Snap();
      ghost var rest := elems[1..];
      assert |rest| == |elems| - 1;
      RingWalk(nodes, elems, |elems| - 1);
      var first := nodes[handle].next;
      RingWalk(nodes, elems, 0);
      var task := nodes[first].next;
      ghost var k := 0;
      claimed := [];
      var done := false;
      while !done
        invariant k <= |rest|
        invariant done <==> k == |rest|
        invariant !done ==> task == elems[k + 1]
        invariant Valid() && nodes == s0.nodes
        invariant Claims(Snap(), claimed) == JoinFirst(s0, rest, k)
        decreases |rest| - k
      {
        RingWalk(nodes, elems, k + 1);
        var next := nodes[task].next;
        done := task == handle;
        JoinFirstStep(s0, rest, k);
        var run := JoinStep(task);
        claimed := claimed + match run case Some(e) => [e] case None => [];
        task := next;
        k := k + 1;
      }
    }
  }
}
