/** The ready list and the process table as the kernel keeps them: arrays, counters and `currpid`,
    changed in place. Every operation is proved to be the one of module `Scheduler`. */
module ProcTable {
  import opened MaxHeap
  import opened PriorityQueue
  import S = Scheduler

  class ReadyList {
    const queue: PriorityQueue<int>
    var count: int

    ghost predicate Valid()
      reads this, queue, queue.mem
    {
      queue.Valid()
    }

    /** The kernel never initialises `_count`; 0 is assumed. */
    constructor ()
      ensures Valid() && fresh(queue) && fresh(queue.mem)
      ensures queue.Contents() == [] && count == 0
    {
      queue := new PriorityQueue<int>();
      count := 0;
    }

    method Insert(id: int, prio: int)
      requires Valid()
      modifies this, queue, queue.mem
      ensures Valid() && (queue.mem == old(queue.mem) || fresh(queue.mem))
      ensures queue.Contents() == MaxHeap.Insert(old(queue.Contents()), KeyVal(prio, id))
      ensures count == old(count) + 1
    {
      queue.Insert(KeyVal(prio, id));
      count := count + 1;
    }

    method Erase(id: int) returns (erased: bool)
      requires Valid()
      modifies this, queue
      ensures Valid() && fresh(queue.mem)
      ensures queue.Contents() == MaxHeap.Erase(old(queue.Contents()), id)
      ensures erased == (|queue.Contents()| < |old(queue.Contents())|)
      ensures count == if erased then old(count) - 1 else old(count)
    {
      var removed := queue.Erase(id);
      erased := removed != 0;
      if erased {
        count := count - 1;
      }
    }

    method Pop() returns (id: int)
      requires Valid() && queue.Contents() != []
      modifies this, queue, queue.mem
      ensures Valid() && queue.mem == old(queue.mem)
      ensures id == old(queue.Contents())[0].val
      ensures queue.Contents() == MaxHeap.Dequeue(old(queue.Contents()))
      ensures count == old(count) - 1
    {
      var kv := queue.Dequeue();
      count := count - 1;
      id := kv.val;
    }

    method Peek() returns (id: int)
      requires Valid() && queue.Contents() != []
      ensures id == queue.Contents()[0].val
    {
      var kv := queue.Top();
      id := kv.val;
    }
  }

  class ProcEntryTable {
    const procs: array<S.Proc>
    const taken: array<bool>
    const ready: ReadyList
    var total: int
    var currpid: int

    ghost predicate Valid()
      reads this, procs, taken, ready, ready.queue, ready.queue.mem
    {
      && procs.Length == taken.Length == S.MAX_PROC_NUM
      && S.IsPid(currpid)
      && ready.Valid()
      && S.ListsPids(ready.queue.Contents())
    }

    ghost function Model(): S.Kernel
      requires Valid()
      reads this, procs, taken, ready, ready.queue, ready.queue.mem
    {
      S.Kernel(procs[..], taken[..], total, ready.queue.Contents(), ready.count, currpid)
    }

    constructor ()
      ensures Valid() && Model() == S.Blank()
      ensures fresh(procs) && fresh(taken) && fresh(ready) && fresh(ready.queue) && fresh(ready.queue.mem)
    {
      procs := new S.Proc[S.MAX_PROC_NUM](_ => S.Proc(-1, S.NA, 10, false));
      taken := new bool[S.MAX_PROC_NUM](_ => false);
      ready := new ReadyList();
      total := 0;
      currpid := S.MAIN_PID;
    }

    method SetStatus(p: int, status: S.Status)
      requires Valid() && S.IsPid(p)
      modifies procs
      ensures Valid() && Model() == S.SetStatus(old(Model()), p, status)
    {
      procs[p] := procs[p].(status := status);
    }

    method GetStatus(p: int) returns (status: S.Status)
      requires Valid() && S.IsPid(p)
      ensures status == Model().procs[p].status
    {
      status := procs[p].status;
    }

    method GetPriority(p: int) returns (priority: int)
      requires Valid() && S.IsPid(p)
      ensures priority == Model().procs[p].priority
    {
      priority := procs[p].priority;
    }

    method Enlist(p: int, priority: int)
      requires Valid() && S.IsPid(p)
      modifies ready, ready.queue, ready.queue.mem
      ensures Valid() && (ready.queue.mem == old(ready.queue.mem) || fresh(ready.queue.mem))
      ensures Model() == S.Enlist(old(Model()), p, priority)
    {
      hide Heap, MaxHeap.Insert, S.ListsPids;
      S.EnlistKeepsPids(ready.queue.Contents(), KeyVal(priority, p));
      ready.Insert(p, priority);
    }

    /** Pops the top of the ready list and makes it the current pid. */
    method ScheduleNextTask()
      requires Valid() && Model().heap != []
      modifies `currpid, ready, ready.queue, ready.queue.mem
      ensures Valid() && ready.queue.mem == old(ready.queue.mem)
      ensures var k := old(Model());
              Model() == k.(heap := MaxHeap.Dequeue(k.heap), count := k.count - 1, currpid := k.heap[0].val)
    {
      hide Heap, MaxHeap.Dequeue, S.ListsPids;
      S.TopPid(ready.queue.Contents());
      currpid := ready.Pop();
    }

    method FreeSlot() returns (i: nat)
      requires Valid()
      ensures i == S.FirstUntaken(taken[..]) <= S.MAX_PROC_NUM
    {
      i := 0;
      while i < S.MAX_PROC_NUM && taken[i]
        invariant 0 <= i <= S.MAX_PROC_NUM
        invariant forall j :: 0 <= j < i ==> taken[j]
      {
        i := i + 1;
      }
    }

    method Insert(proc: S.Proc) returns (id: int)
      requires Valid()
      modifies this, procs, taken, ready, ready.queue, ready.queue.mem
      ensures Valid() && (ready.queue.mem == old(ready.queue.mem) || fresh(ready.queue.mem))
      ensures id == S.Inserted(old(Model()))
      ensures Model() == S.InsertProc(old(Model()), proc)
    {
      hide Heap, MaxHeap.Insert, S.FirstUntaken, S.ListsPids;
      var i := FreeSlot();
      if i == S.MAX_PROC_NUM {
        return -1;
      }
      procs[i] := proc.(id := i);
      taken[i] := true;
      total := total + 1;
      if proc.status == S.RUNNABLE {
        Enlist(i, proc.priority);
      }
      return i;
    }

    method IsValid(p: int) returns (valid: bool)
      requires Valid() && S.IsPid(p)
      ensures valid == S.IsValid(Model(), p)
    {
      var status := procs[p].status;
      valid := status == S.RUNNABLE || status == S.CURR || status == S.SUSPENDED;
    }

    method Ready(p: int) returns (code: S.Code)
      requires Valid() && S.IsPid(p)
      modifies ready, ready.queue, ready.queue.mem
      ensures Valid() && (ready.queue.mem == old(ready.queue.mem) || fresh(ready.queue.mem))
      ensures S.Done(Model(), code) == S.Ready(old(Model()), p)
    {
      var valid := IsValid(p);
      if !valid {
        return S.PROC_NEX;
      }
      if procs[p].status == S.RUNNABLE {
        return S.PROC_ERR;
      }
      Enlist(p, procs[p].priority);
      return S.PROC_OK;
    }

    method Suspend(p: int) returns (code: S.Code)
      requires Valid() && S.IsPid(p)
      modifies procs, ready, ready.queue, ready.queue.mem
      ensures Valid() && (ready.queue.mem == old(ready.queue.mem) || fresh(ready.queue.mem))
      ensures S.Done(Model(), code) == S.Suspend(old(Model()), p)
    {
      hide Heap, MaxHeap.Erase, S.ListsPids;
      ghost var k := Model();
      var valid := IsValid(p);
      if !valid {
        return S.PROC_NEX;
      }
      if procs[p].status == S.RUNNABLE {
        var erased := ready.Erase(p);
        S.DelistKeepsPids(k, p);
      }
      SetStatus(p, S.SUSPENDED);
      return S.PROC_OK;
    }

    /** The second half of `resched`: pop, put back, run. */
    method Dispatch()
      requires Valid() && Model().heap != []
      modifies this, procs, ready, ready.queue, ready.queue.mem
      ensures Valid() && (ready.queue.mem == old(ready.queue.mem) || fresh(ready.queue.mem))
      ensures Model() == S.Dispatch(old(Model()))
    {
      hide Heap, MaxHeap.Insert, MaxHeap.Dequeue, S.ListsPids;
      var oldpid := currpid;
      S.TopPid(Model().heap);
      var status := GetStatus(oldpid);
      if status == S.CURR {
        SetStatus(oldpid, S.RUNNABLE);
      }
      ScheduleNextTask();
      status := GetStatus(oldpid);
      if status == S.RUNNABLE {
        var priority := GetPriority(oldpid);
        Enlist(oldpid, priority);
      }
      SetStatus(currpid, S.CURR);
    }

    /** The preemption decision, and whether it switches. The caller must not make it pop an empty list. */
    method Resched() returns (switched: bool)
      requires Valid() && S.Resched(Model()).Done?
      modifies this, procs, ready, ready.queue, ready.queue.mem
      ensures Valid() && (ready.queue.mem == old(ready.queue.mem) || fresh(ready.queue.mem))
      ensures Model() == S.Resched(old(Model())).k
      ensures switched == !S.KeepsRunning(old(Model()))
    {
      hide Heap, S.Dispatch, S.ListsPids;
      if procs[currpid].status == S.CURR {
        if ready.count == 0 {
          return false;
        }
        S.TopPid(ready.queue.Contents());
        var top := ready.Peek();
        if procs[currpid].priority > procs[top].priority {
          return false;
        }
      }
      Dispatch();
      return true;
    }

    /** `setStatus(PR_DEAD)` and `release()`. */
    method Bury(p: int)
      requires Valid() && S.IsPid(p)
      modifies procs
      ensures Valid() && Model() == S.Bury(old(Model()), p)
    {
      procs[p] := procs[p].(status := S.DEAD, stack := false);
    }

    method Kill(p: int) returns (code: S.Code)
      requires Valid() && S.IsPid(p) && S.Kill(Model(), p).Done?
      modifies this, procs, ready, ready.queue, ready.queue.mem
      ensures Valid() && (ready.queue.mem == old(ready.queue.mem) || fresh(ready.queue.mem))
      ensures S.Done(Model(), code) == S.Kill(old(Model()), p)
    {
      hide Heap, S.Suspend, S.Resched, S.Bury;
      S.DelistKeepsPids(Model(), p);
      var valid := IsValid(p);
      if !valid {
        return S.PROC_NEX;
      }
      code := Suspend(p);
      Bury(p);
      var switched := Resched();
    }
  }

  /** `processes::init`: the null process, then the boot thread, which must get pid 1. */
  method Init() returns (table: ProcEntryTable)
    ensures fresh(table) && table.Valid() && table.Model() == S.Boot()
    ensures fresh(table.procs) && fresh(table.taken)
    ensures fresh(table.ready) && fresh(table.ready.queue) && fresh(table.ready.queue.mem)
  {
    hide Heap, MaxHeap.Insert, S.InsertProc;
    table := new ProcEntryTable();
    var nullpid := table.Insert(S.Proc(-1, S.RUNNABLE, 0, true));
    var mainpid := table.Insert(S.Proc(-1, S.CURR, 10, false));
  }
}
