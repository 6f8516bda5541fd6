/** The process table, the ready list and `resched` as a state machine. */
module Scheduler {
  import opened MaxHeap

  const MAX_PROC_NUM: nat := 1024
  const MAIN_PID := 1

  datatype Status = CURR | RUNNABLE | SUSPENDED | DEAD | NA
  datatype Code = PROC_ERR | PROC_OK | PROC_NEX

  /** `stack` says whether `_stackmem` is non-NULL. */
  datatype Proc = Proc(id: int, status: Status, priority: int, stack: bool)

  datatype Kernel = Kernel(procs: seq<Proc>, taken: seq<bool>, total: int,
                           heap: seq<KeyVal<int>>, count: int, currpid: int) {
    predicate Shaped() {
      |procs| == MAX_PROC_NUM && |taken| == MAX_PROC_NUM && IsPid(currpid)
    }
  }

  /** `Fault` stands for reading a ready list that is empty or releasing a NULL stack. */
  datatype Outcome = Fault | Done(k: Kernel, code: Code)

  predicate IsPid(p: int) { 0 <= p < MAX_PROC_NUM }

  predicate ListsPids(heap: seq<KeyVal<int>>) {
    forall e :: e in multiset(heap) ==> IsPid(e.val)
  }

  function Entry(k: Kernel, p: int): KeyVal<int>
    requires k.Shaped() && IsPid(p)
  {
    KeyVal(k.procs[p].priority, p)
  }

  function SetStatus(k: Kernel, p: int, s: Status): (k': Kernel)
    requires k.Shaped() && IsPid(p)
    ensures k'.Shaped()
  {
    k.(procs := k.procs[p := k.procs[p].(status := s)])
  }

  // ---------- ReadyList ----------

  function Enlist(k: Kernel, p: int, priority: int): Kernel {
    k.(heap := Insert(k.heap, KeyVal(priority, p)), count := k.count + 1)
  }

  /** `_count` drops by one however many pairs were removed. */
  function Delist(k: Kernel, p: int): Kernel {
    var r := Erase(k.heap, p);
    k.(heap := r, count := if |r| < |k.heap| then k.count - 1 else k.count)
  }

  // ---------- The process interface ----------

  predicate IsValid(k: Kernel, p: int)
    requires k.Shaped() && IsPid(p)
  {
    var s := k.procs[p].status;
    s == RUNNABLE || s == CURR || s == SUSPENDED
  }

  function FirstUntaken(taken: seq<bool>): (i: nat)
    ensures i <= |taken|
    ensures i < |taken| ==> !taken[i]
    ensures forall j :: 0 <= j < i ==> taken[j]
  {
    if taken == [] || !taken[0] then 0 else 1 + FirstUntaken(taken[1..])
  }

  /** `ProcEntryTable::insert`: -1 when all slots are taken. */
  function Inserted(k: Kernel): int
    requires k.Shaped()
  {
    var i := FirstUntaken(k.taken);
    if i == MAX_PROC_NUM then -1 else i
  }

  function InsertProc(k: Kernel, proc: Proc): (k': Kernel)
    requires k.Shaped()
    ensures k'.Shaped()
    ensures ListsPids(k.heap) ==> ListsPids(k'.heap)
  {
    var i := Inserted(k);
    if i == -1 then k
    else
      var k1 := k.(procs := k.procs[i := proc.(id := i)], taken := k.taken[i := true], total := k.total + 1);
      if proc.status == RUNNABLE then Enlist(k1, i, proc.priority) else k1
  }

  function Ready(k: Kernel, p: int): Outcome
    requires k.Shaped() && IsPid(p)
  {
    if !IsValid(k, p) then Done(k, PROC_NEX)
    else if k.procs[p].status == RUNNABLE then Done(k, PROC_ERR)
    else Done(Enlist(k, p, k.procs[p].priority), PROC_OK)
  }

  function Suspend(k: Kernel, p: int): (o: Outcome)
    requires k.Shaped() && IsPid(p)
    ensures o.Done? && o.k.Shaped() && (o.code == PROC_OK <==> IsValid(k, p))
  {
    if !IsValid(k, p) then Done(k, PROC_NEX)
    else
      var k1 := if k.procs[p].status == RUNNABLE then Delist(k, p) else k;
      Done(SetStatus(k1, p, SUSPENDED), PROC_OK)
  }

  /** The current process stays: nobody is ready, or it has strictly the highest priority. */
  predicate KeepsRunning(k: Kernel)
    requires k.Shaped() && ListsPids(k.heap)
  {
    assert k.heap != [] ==> k.heap[0] in multiset(k.heap);
    k.procs[k.currpid].status == CURR
    && (k.count == 0 || (k.heap != [] && k.procs[k.currpid].priority > k.procs[k.heap[0].val].priority))
  }

  /** Pop the top of the ready list, put the interrupted process back, and run the popped one. */
  function Dispatch(k: Kernel): (k': Kernel)
    requires k.Shaped() && ListsPids(k.heap) && k.heap != []
    ensures k'.Shaped()
  {
    var prev := k.currpid;
    var k1 := if k.procs[prev].status == CURR then SetStatus(k, prev, RUNNABLE) else k;
    assert k.heap[0] in multiset(k.heap);
    var next := k1.heap[0].val;
    var k2 := k1.(heap := Dequeue(k1.heap), count := k1.count - 1, currpid := next);
    var k3 := if k2.procs[prev].status == RUNNABLE then Enlist(k2, prev, k2.procs[prev].priority) else k2;
    SetStatus(k3, next, CURR)
  }

  function Resched(k: Kernel): (o: Outcome)
    requires k.Shaped() && ListsPids(k.heap)
    ensures o.Done? ==> o.k.Shaped() && o.code == PROC_OK
  {
    if KeepsRunning(k) then Done(k, PROC_OK)
    else if k.heap == [] then Fault
    else Done(Dispatch(k), PROC_OK)
  }

  /** Suspend, mark dead, release the stack, and give up the processor. */
  function Kill(k: Kernel, p: int): Outcome
    requires k.Shaped() && IsPid(p) && ListsPids(k.heap)
  {
    if !IsValid(k, p) then Done(k, PROC_NEX)
    else if !k.procs[p].stack then Fault
    else
      DelistKeepsPids(k, p);
      Resched(Bury(Suspend(k, p).k, p))
  }

  function Bury(k: Kernel, p: int): (k': Kernel)
    requires k.Shaped() && IsPid(p)
    ensures k'.Shaped() && k'.heap == k.heap
  {
    k.(procs := k.procs[p := k.procs[p].(status := DEAD, stack := false)])
  }

  lemma DelistKeepsPids(k: Kernel, p: int)
    requires ListsPids(k.heap)
    ensures ListsPids(Delist(k, p).heap)
  {
    EraseHeap(k.heap, p);
  }

  lemma EnlistKeepsPids(heap: seq<KeyVal<int>>, e: KeyVal<int>)
    requires ListsPids(heap) && IsPid(e.val)
    ensures ListsPids(Insert(heap, e))
  {
  }

  lemma TopPid(heap: seq<KeyVal<int>>)
    requires ListsPids(heap) && heap != []
    ensures IsPid(heap[0].val) && ListsPids(Dequeue(heap))
  {
  }

  // ---------- The invariant ----------

  /** A suspended process that `ready` has listed and that has not been dispatched yet. */
  ghost predicate Pending(k: Kernel, p: int)
    requires k.Shaped() && IsPid(p)
  {
    k.procs[p].status == SUSPENDED && Entry(k, p) in multiset(k.heap)
  }

  /** How often a process may be listed, by its status. */
  predicate ListedRight(s: Status, n: nat) {
    match s
    case RUNNABLE => n == 1
    case SUSPENDED => n <= 1
    case _ => n == 0
  }

  /** Pair by pair: only pids under their own priority are listed, every runnable one exactly once, a
      suspended one at most once, and nobody else. */
  ghost predicate BagAgrees(procs: seq<Proc>, b: multiset<KeyVal<int>>)
    requires |procs| == MAX_PROC_NUM
  {
    && (forall e :: e in b ==> IsPid(e.val) && e.key == procs[e.val].priority)
    && (forall p :: IsPid(p) ==> ListedRight(procs[p].status, b[KeyVal(procs[p].priority, p)]))
  }

  ghost predicate ListAgrees(k: Kernel)
    requires k.Shaped()
  {
    Heap(k.heap) && k.count == |k.heap| && BagAgrees(k.procs, multiset(k.heap))
  }

  ghost predicate TableAgrees(k: Kernel)
    requires k.Shaped()
  {
    && k.total == CountTaken(k.taken)
    && k.taken[k.currpid] && k.taken[MAIN_PID]
    && (forall p :: IsPid(p) ==> (k.taken[p] <==> k.procs[p].status != NA))
    && (forall p :: IsPid(p) && k.taken[p] ==> k.procs[p].id == p)
    && (forall p :: IsPid(p) && k.procs[p].status == DEAD ==> !k.procs[p].stack)
    && (forall p :: IsPid(p) && IsValid(k, p) ==> (k.procs[p].stack <==> p != MAIN_PID))
  }

  /** At most one process is current, and it is `currpid`; `currpid` is never merely runnable. */
  ghost predicate CurrentAgrees(k: Kernel)
    requires k.Shaped()
  {
    && k.procs[k.currpid].status != RUNNABLE
    && (forall p :: IsPid(p) && k.procs[p].status == CURR ==> p == k.currpid)
  }

  ghost predicate Inv(k: Kernel) {
    k.Shaped() && ListAgrees(k) && TableAgrees(k) && CurrentAgrees(k)
  }

  function CountTaken(taken: seq<bool>): nat {
    if taken == [] then 0 else (if taken[0] then 1 else 0) + CountTaken(taken[1..])
  }

  // ---------- Boot and runs ----------

  /** The table before any process, with `_count` taken to start at 0. */
  function Blank(): Kernel {
    Kernel(seq(MAX_PROC_NUM, _ => Proc(-1, NA, 10, false)), seq(MAX_PROC_NUM, _ => false), 0, [], 0, MAIN_PID)
  }

  /** `processes::init`: the null process on the ready list, then the boot thread as the current one. */
  function Boot(): Kernel {
    InsertProc(InsertProc(Blank(), Proc(-1, RUNNABLE, 0, true)), Proc(-1, CURR, 10, false))
  }

  datatype Call =
    | Create(priority: int, status: Status, doResched: bool)
    | SuspendCall(p: int)
    | KillCall(p: int)
    | ReadyCall(p: int)
    | Timer

  predicate NamesPid(call: Call) {
    call.SuspendCall? || call.KillCall? || call.ReadyCall? ==> IsPid(call.p)
  }

  /** One call; reading outside the table is a fault too. */
  function Perform(k: Kernel, call: Call): Outcome {
    if !(k.Shaped() && ListsPids(k.heap) && NamesPid(call)) then Fault
    else
      match call
      case Create(priority, status, doResched) =>
        var k1 := InsertProc(k, Proc(-1, status, priority, true));
        if doResched then Resched(k1) else Done(k1, PROC_OK)
      case SuspendCall(p) => Suspend(k, p)
      case KillCall(p) => Kill(k, p)
      case ReadyCall(p) => Ready(k, p)
      case Timer => Resched(k)
  }
}
