/** What each call does to the table and the ready list, entry by entry, and which code it returns. */
module SchedulerEffects {
  import opened MaxHeap
  import opened Scheduler
  import P = SchedulerProofs

  /** The entries that the kernel hands out pids for. */
  lemma TableSize(k: Kernel)
    requires k.Shaped()
    ensures |k.procs| == 1024 && |k.taken| == 1024 && 0 <= k.currpid < 1024
  {
  }

  /** `isvalid`: current, runnable or suspended, and nothing else. */
  lemma ValidStatuses(k: Kernel, p: int)
    requires k.Shaped() && 0 <= p < 1024
    ensures IsValid(k, p) <==> k.procs[p].status in {CURR, RUNNABLE, SUSPENDED}
    ensures !IsValid(k, p) <==> k.procs[p].status in {DEAD, NA}
  {
  }

  /** Nothing but the ready list and the entries changes. */
  predicate SameTable(k: Kernel, k': Kernel) {
    k'.taken == k.taken && k'.total == k.total
  }

  /** The lowest free slot gets the process as given, under its slot number; all other entries stay; it is
      listed, under its own priority, exactly if it is runnable. */
  lemma InsertEffect(k: Kernel, proc: Proc)
    requires k.Shaped()
    ensures var i, k' := Inserted(k), InsertProc(k, proc);
            && (i == -1 <==> forall j :: 0 <= j < 1024 ==> k.taken[j])
            && (i == -1 ==> k' == k)
            && (i != -1 ==>
                  && 0 <= i < 1024 && !k.taken[i] && (forall j :: 0 <= j < i ==> k.taken[j])
                  && k'.procs[i].id == i && k'.procs[i].status == proc.status
                  && k'.procs[i].priority == proc.priority && k'.procs[i].stack == proc.stack
                  && (forall p :: 0 <= p < 1024 && p != i ==> k'.procs[p] == k.procs[p] && k'.taken[p] == k.taken[p])
                  && k'.taken[i] && k'.total == k.total + 1 && k'.currpid == k.currpid
                  && multiset(k'.heap) == multiset(k.heap) +
                     (if proc.status == RUNNABLE then multiset{KeyVal(proc.priority, i)} else multiset{})
                  && k'.count == k.count + (if proc.status == RUNNABLE then 1 else 0))
  {
    hide Swim;
  }

  /** `ready`: the code tells the three cases apart; the table stays, the process is listed once more. */
  lemma ReadyEffect(k: Kernel, p: int)
    requires k.Shaped() && 0 <= p < 1024
    ensures var o, s := Ready(k, p), k.procs[p].status;
            && o.Done?
            && (o.code == PROC_NEX <==> s in {DEAD, NA})
            && (o.code == PROC_ERR <==> s == RUNNABLE)
            && (o.code == PROC_OK <==> s in {CURR, SUSPENDED})
            && (o.code != PROC_OK ==> o.k == k)
            && o.k.procs == k.procs && SameTable(k, o.k) && o.k.currpid == k.currpid
            && (o.code == PROC_OK ==>
                  multiset(o.k.heap) == multiset(k.heap) + multiset{KeyVal(k.procs[p].priority, p)}
                  && o.k.count == k.count + 1)
  {
    hide Swim;
  }

  /** `suspend`: only the status of the process changes; a runnable one leaves the list. */
  lemma SuspendEffect(k: Kernel, p: int)
    requires Inv(k) && 0 <= p < 1024
    ensures var o, s := Suspend(k, p), k.procs[p].status;
            && (o.code == PROC_NEX <==> s in {DEAD, NA})
            && (o.code == PROC_OK <==> s in {CURR, RUNNABLE, SUSPENDED})
            && (o.code == PROC_NEX ==> o.k == k)
            && (o.code == PROC_OK ==> o.k.procs == k.procs[p := k.procs[p].(status := SUSPENDED)])
            && SameTable(k, o.k) && o.k.currpid == k.currpid
            && multiset(o.k.heap) == multiset(k.heap) -
               (if s == RUNNABLE then multiset{KeyVal(k.procs[p].priority, p)} else multiset{})
            && o.k.count == k.count - (if s == RUNNABLE then 1 else 0)
  {
    hide Heap, Rebuild, TableAgrees, CurrentAgrees, BagAgrees;
    if k.procs[p].status == RUNNABLE {
      P.DelistCount(k, p);
    }
  }

  /** The current process stays exactly if it is running and strictly above everybody listed. */
  ghost predicate Stays(k: Kernel)
    requires k.Shaped()
  {
    k.procs[k.currpid].status == CURR && forall e :: e in multiset(k.heap) ==> e.key < k.procs[k.currpid].priority
  }

  lemma KeepsIffStays(k: Kernel)
    requires k.Shaped() && Inv(k) && ListsPids(k.heap)
    ensures KeepsRunning(k) <==> Stays(k)
  {
    hide Heap, BagAgrees, TableAgrees, CurrentAgrees;
    if k.heap != [] {
      P.TopIsListed(k);
      P.TopBounds(k);
    }
  }

  /** The entry of a process after `resched` from `prev` to `next`. */
  function Rescheduled(k: Kernel, next: int, p: int): Proc
    requires k.Shaped() && IsPid(p)
  {
    if p == next then k.procs[p].(status := CURR)
    else if p == k.currpid && k.procs[p].status == CURR then k.procs[p].(status := RUNNABLE)
    else k.procs[p]
  }

  lemma DispatchEffect(k: Kernel)
    requires k.Shaped() && Inv(k) && ListsPids(k.heap) && k.heap != []
    ensures var k', next := Dispatch(k), k.heap[0].val;
            && k'.currpid == next && 0 <= next < 1024 && k.heap[0] == KeyVal(k.procs[next].priority, next)
            && SameTable(k, k')
            && (forall p :: 0 <= p < 1024 ==> k'.procs[p] == Rescheduled(k, next, p))
            && multiset(k'.heap) == multiset(k.heap) - multiset{k.heap[0]} +
               (if k.procs[k.currpid].status == CURR then multiset{KeyVal(k.procs[k.currpid].priority, k.currpid)}
                else multiset{})
            && k'.count == k.count - (if k.procs[k.currpid].status == CURR then 0 else 1)
  {
    hide Inv, ListsPids, Dispatch;
    P.TopIsListed(k);
    P.DispatchProcs(k);
    NotRunnable(k);
    DispatchList(k);
  }

  lemma NotRunnable(k: Kernel)
    requires Inv(k)
    ensures k.procs[k.currpid].status != RUNNABLE
  {
  }

  lemma DispatchList(k: Kernel)
    requires k.Shaped() && ListsPids(k.heap) && k.heap != [] && k.procs[k.currpid].status != RUNNABLE
    requires k.heap[0] in multiset(k.heap)
    ensures var k' := Dispatch(k);
            && multiset(k'.heap) == multiset(k.heap) - multiset{k.heap[0]} +
               (if k.procs[k.currpid].status == CURR then multiset{KeyVal(k.procs[k.currpid].priority, k.currpid)}
                else multiset{})
            && k'.count == k.count - (if k.procs[k.currpid].status == CURR then 0 else 1)
  {
    hide ListsPids, Insert, Dequeue;
  }

  /** `resched`: nothing changes if the current process stays. Otherwise a listed process of highest priority
      leaves the list and runs, an interrupted one goes onto it under its priority, and no other entry changes. */
  lemma ReschedEffect(k: Kernel)
    requires k.Shaped() && Inv(k) && ListsPids(k.heap) && Resched(k).Done?
    ensures var k' := Resched(k).k;
            && (Stays(k) ==> k' == k)
            && (!Stays(k) ==>
                  var next := k'.currpid;
                  var top := KeyVal(k.procs[next].priority, next);
                  && top in multiset(k.heap) && (forall e :: e in multiset(k.heap) ==> e.key <= top.key)
                  && SameTable(k, k')
                  && (forall p :: 0 <= p < 1024 ==> k'.procs[p] == Rescheduled(k, next, p))
                  && multiset(k'.heap) == multiset(k.heap) - multiset{top} +
                     (if k.procs[k.currpid].status == CURR then multiset{KeyVal(k.procs[k.currpid].priority, k.currpid)}
                      else multiset{})
                  && k'.count == k.count - (if k.procs[k.currpid].status == CURR then 0 else 1))
  {
    hide Inv, ListsPids, Dispatch, KeepsRunning, Stays;
    KeepsIffStays(k);
    if !KeepsRunning(k) {
      DispatchEffect(k);
      P.TopBounds(k);
      assert k.heap[0] in multiset(k.heap);
    }
  }

  /** What `kill` leaves to `resched`: the victim dead, without a stack and off the list, all else as it was. */
  ghost predicate Killed(k: Kernel, p: int, k1: Kernel)
    requires k.Shaped() && IsPid(p)
  {
    && k1.procs == k.procs[p := k.procs[p].(status := DEAD, stack := false)]
    && SameTable(k, k1) && k1.currpid == k.currpid
    && multiset(k1.heap) == multiset(k.heap) -
       (if k.procs[p].status == RUNNABLE then multiset{KeyVal(k.procs[p].priority, p)} else multiset{})
    && k1.count == k.count - (if k.procs[p].status == RUNNABLE then 1 else 0)
  }

  lemma BuriedState(k: Kernel, p: int)
    requires k.Shaped() && Inv(k) && 0 <= p < 1024 && IsValid(k, p) && !Pending(k, p)
    ensures var k1 := Bury(Suspend(k, p).k, p); Killed(k, p, k1) && Inv(k1) && ListsPids(k1.heap)
  {
    hide Inv, Suspend, ListsPids;
    SuspendEffect(k, p);
    P.SuspendKeeps(k, p);
    P.SuspendDelistsIff(k, p);
    P.BuryKeeps(Suspend(k, p).k, p);
    P.InvLists(Bury(Suspend(k, p).k, p));
  }

  lemma HasStack(k: Kernel, p: int)
    requires Inv(k) && IsPid(p) && IsValid(k, p) && p != 1
    ensures k.procs[p].stack
  {
    hide Heap, BagAgrees;
  }

  /** `kill`: the code says whether the process existed; the victim ends up dead and without a stack. */
  lemma KillEffect(k: Kernel, p: int) returns (k1: Kernel)
    requires k.Shaped() && Inv(k) && ListsPids(k.heap) && 0 <= p < 1024 && p != 1 && !Pending(k, p)
    ensures var o, s := Kill(k, p), k.procs[p].status;
            && (s in {DEAD, NA} ==> o == Done(k, PROC_NEX))
            && (s in {CURR, RUNNABLE, SUSPENDED} ==>
                  && Killed(k, p, k1) && Inv(k1) && ListsPids(k1.heap) && o == Resched(k1)
                  && (o.Done? ==> o.code == PROC_OK && o.k.procs[p] == k.procs[p].(status := DEAD, stack := false)))
  {
    hide Inv, Suspend, Bury, Resched, ListsPids;
    k1 := k;
    if IsValid(k, p) {
      HasStack(k, p);
      BuriedState(k, p);
      k1 := Bury(Suspend(k, p).k, p);
      if Resched(k1).Done? {
        DeadStaysDead(k1, p);
      }
    }
  }

  lemma DeadStaysDead(k: Kernel, p: int)
    requires k.Shaped() && Inv(k) && ListsPids(k.heap) && IsPid(p) && k.procs[p].status == DEAD && Resched(k).Done?
    ensures Resched(k).k.procs[p] == k.procs[p]
  {
    hide Inv, ListsPids, Resched, Stays;
    ReschedEffect(k);
    if !Stays(k) {
      P.ListedIsLive(k, Resched(k).k.currpid);
    }
  }

  /** Right after boot, in numbers. */
  lemma BootInNumbers()
    ensures var k := Boot();
            && |k.procs| == 1024 && |k.taken| == 1024
            && k.procs[0] == Proc(0, RUNNABLE, 0, true) && k.procs[1] == Proc(1, CURR, 10, false)
            && (forall p :: 2 <= p < 1024 ==> k.procs[p].status == NA && !k.taken[p])
            && k.taken[0] && k.taken[1] && k.total == 2 && k.heap == [KeyVal(0, 0)] && k.count == 1 && k.currpid == 1
  {
    P.BootState();
    hide Boot;
  }

  // ---------- The calls ----------

  /** A creation inserts a process with the given priority and status and a stack, then perhaps reschedules. */
  lemma CreateEffect(k: Kernel, priority: int, status: Status, doResched: bool) returns (k1: Kernel)
    requires Inv(k) && ListsPids(k.heap)
    ensures k1.Shaped() && ListsPids(k1.heap)
    ensures Perform(k, Create(priority, status, doResched)) == if doResched then Resched(k1) else Done(k1, PROC_OK)
    ensures Inserted(k) == -1 ==> k1 == k
    ensures var i := Inserted(k);
            i != -1 ==>
              && 0 <= i < 1024 && !k.taken[i] && k1.procs == k.procs[i := Proc(i, status, priority, true)]
              && multiset(k1.heap) == multiset(k.heap) +
                 (if status == RUNNABLE then multiset{KeyVal(priority, i)} else multiset{})
  {
    hide Inv, Resched, Insert;
    P.InvLists(k);
    k1 := InsertProc(k, Proc(-1, status, priority, true));
    InsertEffect(k, Proc(-1, status, priority, true));
  }

  /** The other calls go to the operation they name. */
  lemma CallEffect(k: Kernel, p: int)
    requires k.Shaped() && ListsPids(k.heap) && 0 <= p < 1024
    ensures Perform(k, SuspendCall(p)) == Suspend(k, p) && Perform(k, ReadyCall(p)) == Ready(k, p)
    ensures Perform(k, KillCall(p)) == Kill(k, p) && Perform(k, Timer) == Resched(k)
  {
  }
}
