/** What every call on the process table keeps, when it does not, and whom `resched` picks. */
module SchedulerProofs {
  import opened MaxHeap
  import opened Scheduler

  // ---------- The ready list ----------

  lemma TwoPlacesTwoCounts<T>(s: seq<T>, i: nat, j: nat)
    requires i < j < |s| && s[i] == s[j]
    ensures multiset(s)[s[i]] >= 2
  {
    assert s == s[..j] + [s[j]] + s[j + 1..];
    assert s[i] in multiset(s[..j]);
  }

  /** Each pid sits in the ready heap at most once. */
  lemma ListedOnce(k: Kernel, i: nat, j: nat)
    requires Inv(k) && i < j < |k.heap|
    ensures k.heap[i].val != k.heap[j].val
  {
    hide Heap, TableAgrees, CurrentAgrees;
    var b, e, e' := multiset(k.heap), k.heap[i], k.heap[j];
    assert e in b && e' in b;
    if e.val == e'.val {
      assert ListedRight(k.procs[e.val].status, b[e]);
      TwoPlacesTwoCounts(k.heap, i, j);
    }
  }

  /** The listed pids are exactly the runnable and the pending ones. */
  lemma ListedIffRunnableOrPending(k: Kernel, p: int)
    requires Inv(k) && IsPid(p)
    ensures (exists e :: e in k.heap && e.val == p) <==> k.procs[p].status == RUNNABLE || Pending(k, p)
  {
  }

  /** A change at one pid only needs a look at that pid. */
  lemma BagUpdate(procs: seq<Proc>, b: multiset<KeyVal<int>>, procs': seq<Proc>, b': multiset<KeyVal<int>>, p: int)
    requires |procs| == MAX_PROC_NUM && IsPid(p) && BagAgrees(procs, b)
    requires |procs'| == MAX_PROC_NUM && procs' == procs[p := procs'[p]]
    requires forall e: KeyVal<int> :: e.val != p ==> b'[e] == b[e]
    requires forall e :: e in b' && e.val == p ==> e.key == procs'[p].priority
    requires ListedRight(procs'[p].status, b'[KeyVal(procs'[p].priority, p)])
    ensures BagAgrees(procs', b')
  {
  }

  lemma TableUpdate(k: Kernel, p: int, s: Status)
    requires k.Shaped() && IsPid(p) && TableAgrees(k) && IsValid(k, p)
    requires s == CURR || s == RUNNABLE || s == SUSPENDED
    ensures TableAgrees(SetStatus(k, p, s))
  {
  }

  lemma TableSame(k: Kernel, k': Kernel)
    requires k.Shaped() && TableAgrees(k)
    requires k'.Shaped() && k'.procs == k.procs && k'.taken == k.taken && k'.total == k.total
    requires k'.currpid == k.currpid || k'.taken[k'.currpid]
    ensures TableAgrees(k')
  {
  }

  // ---------- ready and suspend ----------

  lemma EnlistBagIff(procs: seq<Proc>, b: multiset<KeyVal<int>>, p: int)
    requires |procs| == MAX_PROC_NUM && IsPid(p) && BagAgrees(procs, b)
    requires procs[p].status != RUNNABLE
    ensures var e := KeyVal(procs[p].priority, p);
            BagAgrees(procs, b + multiset{e}) <==> procs[p].status == SUSPENDED && e !in b
  {
  }

  /** `ready` keeps the invariant exactly when the process is neither current nor already pending. */
  lemma ReadyKeepsIff(k: Kernel, p: int)
    requires Inv(k) && IsPid(p)
    ensures Ready(k, p).Done?
    ensures Inv(Ready(k, p).k) <==> k.procs[p].status != CURR && !Pending(k, p)
  {
    hide Heap, Insert, TableAgrees, BagAgrees;
    if IsValid(k, p) && k.procs[p].status != RUNNABLE {
      var k' := Ready(k, p).k;
      TableSame(k, k');
      InsertHeap(k.heap, Entry(k, p));
      EnlistBagIff(k.procs, multiset(k.heap), p);
    }
  }

  lemma DelistCount(k: Kernel, p: int)
    requires Inv(k) && IsPid(p) && k.procs[p].status == RUNNABLE
    ensures |Erase(k.heap, p)| == |k.heap| - 1
    ensures multiset(Erase(k.heap, p)) == multiset(k.heap) - multiset{Entry(k, p)}
    ensures Heap(Erase(k.heap, p))
  {
    hide Heap, Erase;
    EraseHeap(k.heap, p);
    var b, b' := multiset(k.heap), multiset(Erase(k.heap, p));
    assert b' == b - multiset{Entry(k, p)};
    assert |b'| == |b| - 1;
  }

  lemma SuspendBag(procs: seq<Proc>, b: multiset<KeyVal<int>>, p: int)
    requires |procs| == MAX_PROC_NUM && IsPid(p) && BagAgrees(procs, b)
    ensures var procs', e := procs[p := procs[p].(status := SUSPENDED)], KeyVal(procs[p].priority, p);
            && BagAgrees(procs', b)
            && (procs[p].status == RUNNABLE ==> BagAgrees(procs', b - multiset{e}))
  {
  }

  lemma SuspendKeeps(k: Kernel, p: int)
    requires Inv(k) && IsPid(p)
    ensures Inv(Suspend(k, p).k)
  {
    hide Heap, Erase, TableAgrees, BagAgrees;
    if IsValid(k, p) {
      if k.procs[p].status == RUNNABLE {
        DelistCount(k, p);
      }
      SuspendBag(k.procs, multiset(k.heap), p);
      TableUpdate(k, p, SUSPENDED);
      TableSame(SetStatus(k, p, SUSPENDED), Suspend(k, p).k);
    }
  }

  /** After a successful `suspend` the process is off the ready list, unless it was pending. */
  lemma SuspendDelistsIff(k: Kernel, p: int)
    requires Inv(k) && IsPid(p) && IsValid(k, p)
    ensures var o := Suspend(k, p);
            && o.code == PROC_OK && o.k.procs[p].status == SUSPENDED
            && (Entry(o.k, p) in multiset(o.k.heap) <==> Pending(k, p))
  {
    hide Heap, Erase;
    if k.procs[p].status == RUNNABLE {
      DelistCount(k, p);
    }
  }

  // ---------- resched ----------

  lemma TopIsListed(k: Kernel)
    requires Inv(k) && k.heap != []
    ensures ListsPids(k.heap)
    ensures k.heap[0] in multiset(k.heap) && IsPid(k.heap[0].val) && k.heap[0] == Entry(k, k.heap[0].val)
    ensures IsValid(k, k.heap[0].val) && k.procs[k.heap[0].val].status != CURR && k.taken[k.heap[0].val]
    ensures multiset(k.heap)[k.heap[0]] == 1
  {
  }

  lemma TakeTopBag(procs: seq<Proc>, b: multiset<KeyVal<int>>, e: KeyVal<int>)
    requires |procs| == MAX_PROC_NUM && BagAgrees(procs, b) && e in b
    ensures IsPid(e.val) && BagAgrees(procs[e.val := procs[e.val].(status := CURR)], b - multiset{e})
  {
  }

  lemma PutBackBag(procs: seq<Proc>, b: multiset<KeyVal<int>>, p: int)
    requires |procs| == MAX_PROC_NUM && BagAgrees(procs, b) && IsPid(p) && procs[p].status == CURR
    ensures BagAgrees(procs[p := procs[p].(status := RUNNABLE)], b + multiset{KeyVal(procs[p].priority, p)})
  {
  }

  lemma DispatchKeepsBag(k: Kernel)
    requires Inv(k) && k.heap != [] && ListsPids(k.heap)
    ensures BagAgrees(Dispatch(k).procs, multiset(Dispatch(k).heap))
  {
    hide Heap, Insert, Dequeue, TableAgrees, BagAgrees;
    TopIsListed(k);
    var prev, top, b := k.currpid, k.heap[0], multiset(k.heap);
    if k.procs[prev].status == CURR {
      PutBackBag(k.procs, b, prev);
      var b1, procs1 := b + multiset{Entry(k, prev)}, k.procs[prev := k.procs[prev].(status := RUNNABLE)];
      TakeTopBag(procs1, b1, top);
      assert multiset(Dispatch(k).heap) == b1 - multiset{top};
    } else {
      TakeTopBag(k.procs, b, top);
    }
  }

  lemma DispatchKeepsHeap(k: Kernel)
    requires Inv(k) && k.heap != [] && ListsPids(k.heap)
    ensures Heap(Dispatch(k).heap) && Dispatch(k).count == |Dispatch(k).heap|
  {
    hide Heap, Insert, Dequeue, TableAgrees, BagAgrees;
    DequeueHeap(k.heap);
    InsertHeap(Dequeue(k.heap), Entry(k, k.currpid));
  }

  lemma DispatchKeepsTable(k: Kernel)
    requires Inv(k) && k.heap != [] && ListsPids(k.heap)
    ensures TableAgrees(Dispatch(k))
  {
    hide Heap, Insert, Dequeue, BagAgrees, TableAgrees, CurrentAgrees;
    TopIsListed(k);
    var prev, next := k.currpid, k.heap[0].val;
    var k1 := if k.procs[prev].status == CURR then SetStatus(k, prev, RUNNABLE) else k;
    if k.procs[prev].status == CURR {
      TableUpdate(k, prev, RUNNABLE);
    }
    TableUpdate(k1, next, CURR);
    TableSame(SetStatus(k1, next, CURR), Dispatch(k));
  }

  lemma DispatchKeepsCurrent(k: Kernel)
    requires Inv(k) && k.heap != [] && ListsPids(k.heap)
    ensures CurrentAgrees(Dispatch(k))
  {
  }

  lemma ReschedKeeps(k: Kernel)
    requires Inv(k)
    ensures ListsPids(k.heap)
    ensures Resched(k).Done? ==> Inv(Resched(k).k)
  {
    hide Heap, Dispatch, TableAgrees, CurrentAgrees;
    if !KeepsRunning(k) && k.heap != [] {
      DispatchKeepsBag(k);
      DispatchKeepsHeap(k);
      DispatchKeepsTable(k);
      DispatchKeepsCurrent(k);
    }
  }

  /** Whoever runs after `resched` has the highest priority of all that could run. A running process is
      kept exactly when it is strictly above everybody listed; on a tie it is replaced by another one. */
  lemma ReschedPicksHighest(k: Kernel)
    requires Inv(k) && ListsPids(k.heap) && Resched(k).Done?
    ensures var k' := Resched(k).k;
            && k'.procs[k'.currpid].status == CURR
            && (forall e :: e in multiset(k'.heap) ==> e.key <= k'.procs[k'.currpid].priority)
            && (k.procs[k.currpid].status == CURR ==>
                  (k'.currpid == k.currpid <==> forall e :: e in multiset(k.heap) ==> e.key < k.procs[k.currpid].priority))
  {
    hide Heap, Dispatch, TableAgrees, BagAgrees;
    if k.heap != [] {
      TopIsListed(k);
      TopBounds(k);
      if !KeepsRunning(k) {
        DispatchPicksTop(k);
      }
    }
  }

  lemma TopBounds(k: Kernel)
    requires Inv(k) && k.heap != []
    ensures forall e :: e in multiset(k.heap) ==> e.key <= k.heap[0].key
  {
    hide Heap;
    forall e | e in multiset(k.heap)
      ensures e.key <= k.heap[0].key
    {
      TopBoundsBag(k.heap, e);
    }
  }

  lemma DispatchPicksTop(k: Kernel)
    requires Inv(k) && ListsPids(k.heap) && k.heap != []
    requires k.procs[k.currpid].status == CURR ==> k.procs[k.currpid].priority <= k.heap[0].key
    ensures var k' := Dispatch(k);
            && k'.currpid == k.heap[0].val && IsPid(k.heap[0].val)
            && k'.procs[k'.currpid].status == CURR && k'.procs[k'.currpid].priority == k.heap[0].key
            && (k.procs[k.currpid].status == CURR ==> k'.currpid != k.currpid)
            && (forall e :: e in multiset(k'.heap) ==> e.key <= k.heap[0].key)
  {
    hide Heap, Insert, Dequeue, TableAgrees, BagAgrees;
    TopIsListed(k);
    TopBounds(k);
  }

  lemma ListedIsLive(k: Kernel, p: int)
    requires Inv(k) && IsPid(p) && Entry(k, p) in multiset(k.heap)
    ensures k.procs[p].status == RUNNABLE || k.procs[p].status == SUSPENDED
  {
    hide Heap, TableAgrees, CurrentAgrees;
    assert ListedRight(k.procs[p].status, multiset(k.heap)[Entry(k, p)]);
  }

  /** The table after a dispatch: the interrupted process runnable, then the popped one current. */
  lemma DispatchProcs(k: Kernel)
    requires k.Shaped() && k.heap != [] && ListsPids(k.heap)
    ensures IsPid(k.heap[0].val) && Dispatch(k).currpid == k.heap[0].val
    ensures Dispatch(k).taken == k.taken && Dispatch(k).total == k.total
    ensures var prev, next := k.currpid, k.heap[0].val;
            var ps := if k.procs[prev].status != CURR then k.procs
                      else k.procs[prev := k.procs[prev].(status := RUNNABLE)];
            Dispatch(k).procs == ps[next := ps[next].(status := CURR)]
  {
    assert k.heap[0] in multiset(k.heap);
    hide ListsPids, Insert, Dequeue;
  }

  // ---------- kill ----------

  lemma BuryTable(k: Kernel, p: int)
    requires k.Shaped() && IsPid(p) && TableAgrees(k) && CurrentAgrees(k) && IsValid(k, p)
    ensures TableAgrees(Bury(k, p)) && CurrentAgrees(Bury(k, p))
  {
  }

  lemma BuryKeeps(k: Kernel, p: int)
    requires Inv(k) && IsPid(p) && IsValid(k, p) && Entry(k, p) !in multiset(k.heap)
    ensures Inv(Bury(k, p))
  {
    hide Heap, TableAgrees, CurrentAgrees;
    BuryTable(k, p);
    var k' := Bury(k, p);
    BagUpdate(k.procs, multiset(k.heap), k'.procs, multiset(k.heap), p);
  }

  lemma DeadListedBreaks(k: Kernel, p: int)
    requires k.Shaped() && IsPid(p) && k.procs[p].status == DEAD && Entry(k, p) in multiset(k.heap)
    ensures !Inv(k)
  {
  }

  lemma StacklessRunningBreaks(k: Kernel, p: int)
    requires k.Shaped() && IsPid(p) && k.procs[p].status == CURR && !k.procs[p].stack && p != MAIN_PID
    ensures !Inv(k)
  {
  }

  /** What a dispatch does to any pid other than the one it picks and the one it interrupts. */
  lemma DispatchSpares(k: Kernel, p: int)
    requires k.Shaped() && ListsPids(k.heap) && k.heap != [] && IsPid(p)
    requires k.procs[p].status == DEAD
    ensures var k', next := Dispatch(k), k.heap[0].val;
            && IsPid(next)
            && k'.procs[p] == (if p == next then k.procs[p].(status := CURR) else k.procs[p])
            && (p != next && Entry(k, p) in multiset(k.heap) ==> Entry(k, p) in multiset(k'.heap))
  {
    hide Heap, Insert, Dequeue;
    assert k.heap[0] in multiset(k.heap);
  }

  /** Killing a pending process leaves a dead one listed, or runs it on a released stack. */
  lemma KillPendingBreaks(k: Kernel, p: int)
    requires Inv(k) && IsPid(p) && Pending(k, p) && ListsPids(k.heap) && Kill(k, p).Done?
    ensures !Inv(Kill(k, p).k)
  {
    var k1, k' := Bury(Suspend(k, p).k, p), Kill(k, p).k;
    assert k.procs[p].stack && p != MAIN_PID;
    hide Inv, Dispatch, Heap, Insert, Dequeue, Erase;
    assert k1.heap == k.heap && Entry(k1, p) == Entry(k, p);
    if KeepsRunning(k1) {
      DeadListedBreaks(k', p);
    } else {
      DispatchSpares(k1, p);
      if p == k.heap[0].val {
        StacklessRunningBreaks(k', p);
      } else {
        DeadListedBreaks(k', p);
      }
    }
  }

  /** `kill` keeps the invariant exactly when its victim is not pending. */
  lemma KillKeepsIff(k: Kernel, p: int)
    requires Inv(k) && IsPid(p) && ListsPids(k.heap)
    requires IsValid(k, p) && Kill(k, p).Done?
    ensures Inv(Kill(k, p).k) <==> !Pending(k, p)
  {
    if Pending(k, p) {
      KillPendingBreaks(k, p);
    } else {
      hide Inv, Suspend, Bury, Resched;
      SuspendKeeps(k, p);
      SuspendDelistsIff(k, p);
      BuryKeeps(Suspend(k, p).k, p);
      ReschedKeeps(Bury(Suspend(k, p).k, p));
    }
  }

  // ---------- create ----------

  lemma {:induction false} CountTakenOneMore(taken: seq<bool>, i: nat)
    requires i < |taken| && !taken[i]
    ensures CountTaken(taken[i := true]) == CountTaken(taken) + 1
  {
    if i == 0 {
      assert taken[0 := true][1..] == taken[1..];
    } else {
      assert taken[i := true][1..] == taken[1..][i - 1 := true];
      CountTakenOneMore(taken[1..], i - 1);
    }
  }

  lemma InsertTable(k: Kernel, proc: Proc)
    requires Inv(k) && proc.stack && (proc.status == RUNNABLE || proc.status == SUSPENDED)
    ensures TableAgrees(InsertProc(k, proc))
  {
    hide Heap, Insert, BagAgrees, CountTaken, CurrentAgrees;
    var i := Inserted(k);
    if i != -1 {
      CountTakenOneMore(k.taken, i);
    }
  }

  lemma InsertCurrent(k: Kernel, proc: Proc)
    requires Inv(k) && (proc.status == RUNNABLE || proc.status == SUSPENDED)
    ensures CurrentAgrees(InsertProc(k, proc))
  {
    hide Heap, Insert, BagAgrees, CountTaken;
    if Inserted(k) != -1 {
      EmptySlot(k);
      hide TableAgrees;
    }
  }

  lemma EmptySlot(k: Kernel)
    requires Inv(k) && Inserted(k) != -1
    ensures IsPid(Inserted(k)) && Inserted(k) != k.currpid && k.procs[Inserted(k)].status == NA
  {
  }

  lemma InsertBag(procs: seq<Proc>, b: multiset<KeyVal<int>>, i: int, proc: Proc)
    requires |procs| == MAX_PROC_NUM && IsPid(i) && BagAgrees(procs, b) && procs[i].status == NA
    ensures proc.status == RUNNABLE ==> BagAgrees(procs[i := proc], b + multiset{KeyVal(proc.priority, i)})
    ensures proc.status == SUSPENDED ==> BagAgrees(procs[i := proc], b)
  {
  }

  lemma InsertKeeps(k: Kernel, proc: Proc)
    requires Inv(k) && proc.stack && (proc.status == RUNNABLE || proc.status == SUSPENDED)
    ensures Inv(InsertProc(k, proc))
  {
    hide Heap, Insert, TableAgrees, CurrentAgrees, BagAgrees;
    var i := Inserted(k);
    InsertTable(k, proc);
    InsertCurrent(k, proc);
    if i != -1 {
      EmptySlot(k);
      InsertHeap(k.heap, KeyVal(proc.priority, i));
      InsertBag(k.procs, multiset(k.heap), i, proc.(id := i));
    }
  }

  /** Creating a process keeps the invariant exactly when it starts runnable or suspended (or the table is full). */
  lemma InsertKeepsIff(k: Kernel, proc: Proc)
    requires Inv(k) && proc.stack
    ensures Inv(InsertProc(k, proc)) <==>
            Inserted(k) == -1 || proc.status == RUNNABLE || proc.status == SUSPENDED
  {
    hide Heap, Insert, BagAgrees, CountTaken;
    var i := Inserted(k);
    if proc.status == RUNNABLE || proc.status == SUSPENDED {
      InsertKeeps(k, proc);
    } else if i != -1 {
      EmptySlot(k);
      var k' := InsertProc(k, proc);
      assert k'.procs[i] == proc.(id := i) && k'.taken[i];
    }
  }

  // ---------- Runs ----------

  lemma {:induction false} CountNone(taken: seq<bool>)
    requires forall i :: 0 <= i < |taken| ==> !taken[i]
    ensures CountTaken(taken) == 0
  {
    if taken != [] {
      CountNone(taken[1..]);
    }
  }

  function BootProcs(): seq<Proc> {
    Blank().procs[0 := Proc(0, RUNNABLE, 0, true)][1 := Proc(1, CURR, 10, false)]
  }

  /** The table after boot, slot by slot. */
  lemma BootState()
    ensures Boot() == Kernel(BootProcs(), Blank().taken[0 := true][1 := true], 2, [KeyVal(0, 0)], 1, MAIN_PID)
  {
    assert Inserted(Blank()) == 0;
    var k1 := InsertProc(Blank(), Proc(-1, RUNNABLE, 0, true));
    assert k1.taken == Blank().taken[0 := true];
    assert k1.taken[0] && !k1.taken[1];
    assert Inserted(k1) == 1;
  }

  lemma BootBag()
    ensures BagAgrees(BootProcs(), multiset{KeyVal(0, 0)})
  {
  }

  lemma BootTable(k: Kernel, t: seq<bool>)
    requires |t| == MAX_PROC_NUM && forall i :: 0 <= i < |t| ==> !t[i]
    requires k.procs == BootProcs() && k.taken == t[0 := true][1 := true] && k.total == 2 && k.currpid == MAIN_PID
    ensures k.Shaped() && TableAgrees(k) && CurrentAgrees(k)
  {
    CountNone(t);
    CountTakenOneMore(t, 0);
    CountTakenOneMore(t[0 := true], 1);
    hide CountTaken;
  }

  lemma BootKeeps()
    ensures Inv(Boot())
  {
    BootState();
    BootTable(Boot(), Blank().taken);
    BootBag();
    hide Boot, TableAgrees, CurrentAgrees, BagAgrees;
    assert multiset([KeyVal(0, 0)]) == multiset{KeyVal(0, 0)};
  }

  /** The run alphabet. Killing the boot thread would release a NULL stack. */
  ghost predicate Guarded(k: Kernel, call: Call) {
    k.Shaped() &&
    match call
    case Create(_, status, _) => status == RUNNABLE || status == SUSPENDED
    case SuspendCall(p) => IsPid(p)
    case KillCall(p) => IsPid(p) && p != MAIN_PID && !Pending(k, p)
    case ReadyCall(p) => IsPid(p) && k.procs[p].status != CURR && !Pending(k, p)
    case Timer => true
  }

  lemma InvLists(k: Kernel)
    requires Inv(k)
    ensures k.Shaped() && ListsPids(k.heap)
  {
    hide Heap, TableAgrees, CurrentAgrees;
  }

  lemma StepKeeps(k: Kernel, call: Call)
    requires Inv(k) && Guarded(k, call)
    ensures ListsPids(k.heap)
    ensures Perform(k, call).Done? ==> Inv(Perform(k, call).k)
  {
    hide Inv, Resched, InsertProc, Suspend, Ready, Kill, ListsPids, Pending;
    InvLists(k);
    match call
    case Create(priority, status, doResched) =>
      var proc := Proc(-1, status, priority, true);
      InsertKeepsIff(k, proc);
      ReschedKeeps(InsertProc(k, proc));
    case SuspendCall(p) => SuspendKeeps(k, p);
    case KillCall(p) => KillStepKeeps(k, p);
    case ReadyCall(p) => ReadyKeepsIff(k, p);
    case Timer => ReschedKeeps(k);
  }

  lemma KillStepKeeps(k: Kernel, p: int)
    requires Inv(k) && IsPid(p) && !Pending(k, p) && ListsPids(k.heap)
    ensures Kill(k, p).Done? ==> Inv(Kill(k, p).k)
  {
    if IsValid(k, p) && Kill(k, p).Done? {
      KillKeepsIff(k, p);
    }
  }

  /** The outcome of a sequence of calls; a fault ends it. */
  ghost function Run(k: Kernel, calls: seq<Call>): Outcome
    decreases |calls|
  {
    if calls == [] then Done(k, PROC_OK)
    else
      var o := Perform(k, calls[0]);
      if o.Fault? then Fault else Run(o.k, calls[1..])
  }

  ghost predicate RunGuarded(k: Kernel, calls: seq<Call>)
    decreases |calls|
  {
    calls == [] ||
    (Guarded(k, calls[0]) && var o := Perform(k, calls[0]); o.Done? ==> RunGuarded(o.k, calls[1..]))
  }

  /** Every guarded run keeps the invariant in every state it reaches. */
  lemma {:induction false} RunKeeps(k: Kernel, calls: seq<Call>)
    requires Inv(k) && RunGuarded(k, calls)
    ensures Run(k, calls).Done? ==> Inv(Run(k, calls).k)
    decreases |calls|
  {
    hide Inv, Perform;
    if calls != [] {
      StepKeeps(k, calls[0]);
      var o := Perform(k, calls[0]);
      if o.Done? {
        RunKeeps(o.k, calls[1..]);
      }
    }
  }

  // ---------- The null process keeps the ready list supplied ----------

  ghost predicate NullAlive(k: Kernel) {
    k.Shaped() && (k.procs[0].status == RUNNABLE || k.procs[0].status == CURR)
  }

  predicate SparesNull(call: Call) {
    !(call.SuspendCall? && call.p == 0) && !(call.KillCall? && call.p == 0)
  }

  lemma ReschedNeverFaults(k: Kernel)
    requires Inv(k) && NullAlive(k) && ListsPids(k.heap)
    ensures Resched(k).Done? && NullAlive(Resched(k).k)
  {
    hide Heap, Insert, Dequeue, TableAgrees;
  }

  lemma KillNeverFaults(k: Kernel, p: int)
    requires Inv(k) && IsPid(p) && p != MAIN_PID && p != 0 && !Pending(k, p) && NullAlive(k) && ListsPids(k.heap)
    ensures Kill(k, p).Done? && NullAlive(Kill(k, p).k)
  {
    if IsValid(k, p) {
      assert k.procs[p].stack;
      SuspendKeeps(k, p);
      SuspendDelistsIff(k, p);
      hide Inv, Resched, Erase;
      BuryKeeps(Suspend(k, p).k, p);
      ReschedNeverFaults(Bury(Suspend(k, p).k, p));
    }
  }

  lemma InsertSparesNull(k: Kernel, proc: Proc)
    requires Inv(k) && NullAlive(k)
    ensures NullAlive(InsertProc(k, proc))
  {
    hide Heap, BagAgrees, Insert, FirstUntaken, CountTaken;
  }

  lemma StepNeverFaults(k: Kernel, call: Call)
    requires Inv(k) && Guarded(k, call) && NullAlive(k) && SparesNull(call) && ListsPids(k.heap)
    ensures Perform(k, call).Done? && NullAlive(Perform(k, call).k)
  {
    hide Inv, Resched, Kill, ListsPids, InsertProc, Insert, Erase, Pending;
    InvLists(k);
    match call
    case Create(priority, status, doResched) =>
      var proc := Proc(-1, status, priority, true);
      InsertSparesNull(k, proc);
      InsertKeeps(k, proc);
      InvLists(InsertProc(k, proc));
      ReschedNeverFaults(InsertProc(k, proc));
    case SuspendCall(p) =>
    case KillCall(p) => KillNeverFaults(k, p);
    case ReadyCall(p) =>
    case Timer => ReschedNeverFaults(k);
  }

  /** A guarded run that spares pid 0 never takes from an empty ready list nor releases a NULL stack. */
  lemma {:induction false} RunNeverFaults(k: Kernel, calls: seq<Call>)
    requires Inv(k) && NullAlive(k) && RunGuarded(k, calls)
    requires forall i :: 0 <= i < |calls| ==> SparesNull(calls[i])
    ensures Run(k, calls).Done? && Inv(Run(k, calls).k)
    decreases |calls|
  {
    hide Inv, Perform, NullAlive;
    if calls != [] {
      StepKeeps(k, calls[0]);
      StepNeverFaults(k, calls[0]);
      RunNeverFaults(Perform(k, calls[0]).k, calls[1..]);
    }
  }

  lemma BootNull()
    ensures Boot().Shaped() && NullAlive(Boot())
  {
  }

  /** From boot on: every guarded run that spares the null process goes through and keeps the invariant. */
  lemma EveryRunFromBoot(calls: seq<Call>)
    requires RunGuarded(Boot(), calls)
    requires forall i :: 0 <= i < |calls| ==> SparesNull(calls[i])
    ensures Run(Boot(), calls).Done? && Inv(Run(Boot(), calls).k)
  {
    hide Inv, Boot, RunGuarded, Run;
    BootKeeps();
    BootNull();
    RunNeverFaults(Boot(), calls);
  }

  // ---------- A reachable pending process ----------

  /** The calls are within the guards and lead from `k` to `k'`. */
  ghost predicate Reaches(k: Kernel, calls: seq<Call>, k': Kernel) {
    RunGuarded(k, calls) && Run(k, calls) == Done(k', PROC_OK)
  }

  lemma ReachesMore(k: Kernel, call: Call, rest: seq<Call>, k': Kernel)
    requires Guarded(k, call) && Perform(k, call).Done? && Reaches(Perform(k, call).k, rest, k')
    ensures Reaches(k, [call] + rest, k')
  {
    hide Perform, Guarded;
    assert ([call] + rest)[1..] == rest;
  }

  lemma ReachesNothing(k: Kernel)
    ensures Reaches(k, [], k)
  {
  }

  /** A thread is created suspended and then readied. */
  function CreateThenReady(priority: int, p: int): seq<Call> {
    [Create(priority, SUSPENDED, false)] + ([ReadyCall(p)] + [])
  }

  lemma NotListed(k: Kernel, p: int)
    requires Inv(k) && IsPid(p) && k.procs[p].status == NA
    ensures forall e :: e in multiset(k.heap) ==> e.val != p
  {
    hide Heap, TableAgrees, CurrentAgrees;
    assert ListedRight(NA, multiset(k.heap)[Entry(k, p)]);
  }

  lemma CreatedSuspended(k: Kernel, priority: int) returns (k': Kernel)
    requires k.Shaped() && Inv(k) && Inserted(k) != -1
    ensures ListsPids(k.heap) && Perform(k, Create(priority, SUSPENDED, false)) == Done(k', PROC_OK)
    ensures Inv(k') && ListsPids(k'.heap) && IsPid(Inserted(k))
    ensures k'.procs[Inserted(k)] == Proc(Inserted(k), SUSPENDED, priority, true)
    ensures Entry(k', Inserted(k)) !in multiset(k'.heap)
  {
    hide Inv, Insert, Resched, FirstUntaken, ListsPids;
    InvLists(k);
    var proc, i := Proc(-1, SUSPENDED, priority, true), Inserted(k);
    EmptySlot(k);
    NotListed(k, i);
    k' := InsertProc(k, proc);
    InsertKeeps(k, proc);
    InvLists(k');
  }

  lemma ReadiedIsListed(k: Kernel, p: int)
    requires k.Shaped() && IsPid(p) && k.procs[p].status == SUSPENDED
    ensures var o := Ready(k, p);
            o.Done? && o.code == PROC_OK && o.k.Shaped() && o.k.procs == k.procs && Pending(o.k, p)
  {
    hide Swim;
  }

  lemma ReadiedIsPending(k: Kernel, p: int) returns (k': Kernel)
    requires k.Shaped() && Inv(k) && ListsPids(k.heap) && IsPid(p)
    requires k.procs[p].status == SUSPENDED && Entry(k, p) !in multiset(k.heap)
    ensures Guarded(k, ReadyCall(p)) && Perform(k, ReadyCall(p)) == Done(k', PROC_OK)
    ensures Inv(k') && ListsPids(k'.heap) && Pending(k', p) && k'.procs == k.procs
  {
    hide Inv, Ready, ListsPids, Resched, Kill, Suspend, InsertProc;
    ReadiedIsListed(k, p);
    ReadyKeepsIff(k, p);
    k' := Ready(k, p).k;
    ReschedKeeps(k');
  }

  /** Wherever a slot is free, these two calls are within the guards and leave the new process pending. */
  lemma PendingReached(k: Kernel, priority: int) returns (k': Kernel)
    requires Inv(k) && Inserted(k) != -1
    ensures Reaches(k, CreateThenReady(priority, Inserted(k)), k')
    ensures Inv(k') && ListsPids(k'.heap) && IsPid(Inserted(k))
    ensures Pending(k', Inserted(k)) && k'.procs[Inserted(k)].stack
  {
    var i := Inserted(k);
    var k1 := CreatedSuspended(k, priority);
    assert Guarded(k, Create(priority, SUSPENDED, false));
    hide Inv, Perform, Reaches, Guarded, Inserted, Pending;
    k' := ReadiedIsPending(k1, i);
    ReachesNothing(k');
    ReachesMore(k1, ReadyCall(i), [], k');
    ReachesMore(k, Create(priority, SUSPENDED, false), [ReadyCall(i)] + [], k');
  }

  /** The process is pending; a second `ready` or a `kill` breaks the agreement, and a `suspend` succeeds but
      leaves the process on the list. */
  ghost predicate PendingFails(k: Kernel, p: int) {
    && k.Shaped() && ListsPids(k.heap) && IsPid(p) && Pending(k, p)
    && Ready(k, p).Done? && !Inv(Ready(k, p).k)
    && Kill(k, p).Done? && !Inv(Kill(k, p).k)
    && Suspend(k, p).code == PROC_OK && Pending(Suspend(k, p).k, p)
  }

  /** So such a state is reached from every state with a free slot. */
  lemma PendingBreaks(k: Kernel, priority: int) returns (k': Kernel)
    requires Inv(k) && Inserted(k) != -1
    ensures Reaches(k, CreateThenReady(priority, Inserted(k)), k')
    ensures Inv(k') && PendingFails(k', Inserted(k))
  {
    k' := PendingReached(k, priority);
    hide Reaches;
    var p := Inserted(k);
    ReadyKeepsIff(k', p);
    SuspendDelistsIff(k', p);
    KillDone(k', p);
    KillPendingBreaks(k', p);
  }

  lemma KillDone(k: Kernel, p: int)
    requires Inv(k) && IsPid(p) && ListsPids(k.heap) && Pending(k, p) && k.procs[p].stack
    ensures Kill(k, p).Done?
  {
    hide Inv, Dispatch;
    assert k.heap != [];
  }

  lemma BootFreeSlot()
    ensures Boot().Shaped() && Inserted(Boot()) == 2
  {
    BootState();
    hide Boot, FirstUntaken;
    var t := Boot().taken;
    assert t[0] && t[1] && !t[2];
  }

  /** The concrete run: right after boot the new process gets pid 2. */
  lemma PendingBreaksFromBoot() returns (k: Kernel)
    ensures Reaches(Boot(), CreateThenReady(5, 2), k)
    ensures Inv(k) && PendingFails(k, 2)
  {
    BootKeeps();
    BootFreeSlot();
    hide Boot, Inv, Reaches;
    k := PendingBreaks(Boot(), 5);
  }
}
