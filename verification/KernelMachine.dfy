/** The scheduler and the machine together: the thread that runs is the one of the current process. */
module KernelMachine {
  import opened MachineWords
  import opened ContextSwitch
  import opened ContextRuns
  import opened ThreadRuns
  import opened ProcTable
  import H = MaxHeap
  import S = Scheduler
  import P = SchedulerProofs

  /** The current process has the processor, and the parked threads are those of all other live processes.
      The cell of process p is its `_sp`. */
  ghost predicate Matched(k: S.Kernel, w: World) {
    && k.Shaped() && |w.cells| == S.MAX_PROC_NUM && w.current == k.currpid
    && (forall p :: p in w.parked <==> S.IsPid(p) && S.IsValid(k, p) && p != k.currpid)
  }

  ghost predicate Together(k: S.Kernel, w: World) {
    S.Inv(k) && Sane(w) && Matched(k, w)
  }

  // ---------- resched ----------

  /** The thread that `resched` leaves the processor to, by the top of the ready list. */
  function SwitchSteps(k: S.Kernel, turn: Turn): seq<Step>
    requires k.Shaped() && S.ListsPids(k.heap)
  {
    if S.KeepsRunning(k) then []
    else if S.IsValid(k, k.currpid) then [Switch(turn)]
    else [Switch(turn), Forget(k.currpid)]
  }

  /** The running thread has called `ctxswitch` for the process on top of the ready list. */
  ghost predicate CallsTop(k: S.Kernel, w: World, turn: Turn) {
    && k.heap != [] && turn.next == k.heap[0].val
    && Undisturbed(w, turn.mem) && Calls(w, turn.mem, turn.caller, turn.top, w.Cell(turn.next))
  }

  /** The scheduler only ever picks a thread that can be continued. */
  lemma TopCanRun(k: S.Kernel, w: World, turn: Turn)
    requires Together(k, w) && CallsTop(k, w, turn)
    ensures Legal(w, turn)
  {
    hide Sane, Undisturbed, Calls, S.Inv;
    P.TopIsListed(k);
  }

  /** Which processes are live after a dispatch, and which is current. */
  lemma DispatchLives(k: S.Kernel, p: int)
    requires k.Shaped() && S.Inv(k) && S.ListsPids(k.heap) && k.heap != [] && S.IsPid(p)
    ensures S.IsPid(k.heap[0].val) && S.IsValid(k, k.heap[0].val) && S.Dispatch(k).currpid == k.heap[0].val
    ensures S.IsValid(S.Dispatch(k), p) <==> S.IsValid(k, p)
  {
    hide S.Inv, S.ListsPids, S.Dispatch;
    P.TopIsListed(k);
    P.DispatchProcs(k);
  }

  lemma StillMatched(k: S.Kernel, w: World, k': S.Kernel, turn: Turn)
    requires Matched(k, w) && FRAME_SIZE <= turn.caller.esp
    requires S.IsPid(turn.next) && S.IsValid(k, turn.next)
    requires k'.Shaped() && k'.currpid == turn.next && forall p :: S.IsPid(p) ==> (S.IsValid(k', p) <==> S.IsValid(k, p))
    ensures var w' := After(w, turn);
            Matched(k', if S.IsValid(k, k.currpid) then w' else w'.(parked := w'.parked - {k.currpid}))
  {
    hide S.IsValid, Saved;
  }

  lemma DispatchMatched(k: S.Kernel, w: World, turn: Turn)
    requires k.Shaped() && S.Inv(k) && Matched(k, w) && FRAME_SIZE <= turn.caller.esp
    requires S.ListsPids(k.heap) && k.heap != [] && turn.next == k.heap[0].val
    ensures var w' := After(w, turn);
            Matched(S.Dispatch(k), if S.IsValid(k, k.currpid) then w' else w'.(parked := w'.parked - {k.currpid}))
  {
    hide S.Inv, S.ListsPids, S.Dispatch, Matched, Saved, S.IsValid;
    DispatchLives(k, k.currpid);
    forall p | S.IsPid(p)
      ensures S.IsValid(S.Dispatch(k), p) <==> S.IsValid(k, p)
    {
      DispatchLives(k, p);
    }
    StillMatched(k, w, S.Dispatch(k), turn);
  }

  lemma SwitchMatched(k: S.Kernel, w: World, turn: Turn)
    requires k.Shaped() && Together(k, w) && S.ListsPids(k.heap) && CallsTop(k, w, turn) && !S.KeepsRunning(k)
    ensures Legal(w, turn) && LegalRun(w, SwitchSteps(k, turn))
    ensures Matched(S.Dispatch(k), RunTo(w, SwitchSteps(k, turn)))
  {
    hide Sane, Undisturbed, Unclaimed, Matched, Saved, LegalRun, RunTo,
         S.Inv, S.ListsPids, S.Dispatch, S.KeepsRunning, S.IsValid;
    TopCanRun(k, w, turn);
    DispatchMatched(k, w, turn);
    RunOne(w, Switch(turn));
    RunTwo(w, Switch(turn), Forget(k.currpid));
  }

  lemma RunOne(w: World, step: Step)
    requires LegalStep(w, step)
    ensures LegalRun(w, [step]) && RunTo(w, [step]) == AfterStep(w, step)
  {
    hide Undisturbed, Unclaimed, Joins, Saved;
    assert [step][1..] == [];
  }

  lemma RunTwo(w: World, first: Step, second: Step)
    requires LegalStep(w, first) && LegalStep(AfterStep(w, first), second)
    ensures LegalRun(w, [first, second]) && RunTo(w, [first, second]) == AfterStep(AfterStep(w, first), second)
  {
    hide Undisturbed, Unclaimed, Joins, Saved;
    RunOne(AfterStep(w, first), second);
    assert [first, second][1..] == [second];
  }

  /** `resched` keeps processes and threads together, whether it switches or not. */
  lemma ReschedTogether(k: S.Kernel, w: World, turn: Turn)
    requires k.Shaped() && Together(k, w) && S.ListsPids(k.heap) && S.Resched(k).Done?
    requires !S.KeepsRunning(k) ==> CallsTop(k, w, turn)
    ensures LegalRun(w, SwitchSteps(k, turn))
    ensures Together(S.Resched(k).k, RunTo(w, SwitchSteps(k, turn)))
  {
    hide Sane, CallsTop, Matched, S.Inv, S.ListsPids, S.Dispatch, S.KeepsRunning;
    P.ReschedKeeps(k);
    if !S.KeepsRunning(k) {
      SwitchMatched(k, w, turn);
    }
    hide LegalRun, RunTo;
    RunKeepsSane(w, SwitchSteps(k, turn));
  }

  // ---------- Calls ----------

  /** The table after the call's own work, before `resched`. */
  function Prepared(k: S.Kernel, call: S.Call): S.Kernel
    requires k.Shaped() && S.NamesPid(call)
  {
    match call
    case Create(priority, status, _) => S.InsertProc(k, S.Proc(-1, status, priority, true))
    case SuspendCall(p) => S.Suspend(k, p).k
    case KillCall(p) => if S.IsValid(k, p) then S.Bury(S.Suspend(k, p).k, p) else k
    case ReadyCall(p) => S.Ready(k, p).k
    case Timer => k
  }

  predicate Reschedules(k: S.Kernel, call: S.Call)
    requires k.Shaped() && S.NamesPid(call)
  {
    match call
    case Create(_, _, doResched) => doResched
    case KillCall(p) => S.IsValid(k, p)
    case Timer => true
    case _ => false
  }

  lemma PreparedKeeps(k: S.Kernel, call: S.Call)
    requires S.Inv(k) && P.Guarded(k, call)
    ensures S.NamesPid(call) && S.Inv(Prepared(k, call))
  {
    hide S.Inv, S.InsertProc, S.Ready;
    match call
    case Create(priority, status, _) => P.InsertKeeps(k, S.Proc(-1, status, priority, true));
    case SuspendCall(p) => P.SuspendKeeps(k, p);
    case KillCall(p) =>
      if S.IsValid(k, p) {
        hide S.Suspend, S.Bury;
        P.SuspendKeeps(k, p);
        P.SuspendDelistsIff(k, p);
        P.BuryKeeps(S.Suspend(k, p).k, p);
      }
    case ReadyCall(p) => P.ReadyKeepsIff(k, p);
    case Timer =>
  }

  /** The call is its own work, then perhaps `resched`. */
  lemma PerformIsPrepared(k: S.Kernel, call: S.Call)
    requires S.Inv(k) && P.Guarded(k, call) && S.Perform(k, call).Done?
    ensures S.NamesPid(call)
    ensures var k1 := Prepared(k, call);
            && k1.Shaped() && S.ListsPids(k1.heap)
            && (if Reschedules(k, call) then S.Resched(k1).Done? && S.Perform(k, call).k == S.Resched(k1).k
                else S.Perform(k, call).k == k1)
  {
    PreparedKeeps(k, call);
    P.InvLists(k);
    P.InvLists(Prepared(k, call));
    hide S.Inv, S.Resched, S.InsertProc, S.Suspend, S.Bury, S.ListsPids;
  }

  // ---------- Threads come and go with their processes ----------

  /** The running thread has worked until memory is `turn.mem` and makes the call; a creation has set up thread
      `made` there; `turn` is the call of `ctxswitch` if it comes to one. */
  datatype Event = Event(call: S.Call, made: Thread, turn: Turn)

  /** A creation adds a thread, a kill ends one. */
  function OwnSteps(k: S.Kernel, e: Event): seq<Step>
    requires k.Shaped() && S.NamesPid(e.call)
  {
    match e.call
    case Create(_, _, _) => if S.Inserted(k) == -1 then [] else [ThreadRuns.Create(e.turn.mem, S.Inserted(k), e.made)]
    case KillCall(p) => if S.IsValid(k, p) && p != k.currpid then [Forget(p)] else []
    case _ => []
  }

  /** A created thread has been set up behind its process's cell. */
  ghost predicate Sets(k: S.Kernel, w: World, e: Event) {
    k.Shaped() && (e.call.Create? && S.Inserted(k) != -1 ==> Built(w, e.turn.mem, S.Inserted(k), e.made))
  }

  lemma SameThreads(k: S.Kernel, k': S.Kernel, w: World)
    requires Matched(k, w) && k'.Shaped() && k'.currpid == k.currpid
    requires forall p :: S.IsPid(p) ==> (S.IsValid(k', p) <==> S.IsValid(k, p))
    ensures Matched(k', w)
  {
  }

  lemma OneMore(k: S.Kernel, k': S.Kernel, w: World, m: Memory, id: int, t: Thread)
    requires Matched(k, w) && k'.Shaped() && k'.currpid == k.currpid && S.IsPid(id) && id != k.currpid && S.IsValid(k', id)
    requires forall p :: S.IsPid(p) && p != id ==> (S.IsValid(k', p) <==> S.IsValid(k, p))
    ensures Matched(k', WithThread(w, m, id, t))
  {
    hide S.IsValid;
  }

  lemma OneLess(k: S.Kernel, k': S.Kernel, w: World, id: int)
    requires Matched(k, w) && k'.Shaped() && k'.currpid == k.currpid && S.IsPid(id) && !S.IsValid(k', id)
    requires forall p :: S.IsPid(p) && p != id ==> (S.IsValid(k', p) <==> S.IsValid(k, p))
    ensures Matched(k', if id == k.currpid then w else w.(parked := w.parked - {id}))
  {
    hide S.IsValid;
  }

  lemma InsertLives(k: S.Kernel, proc: S.Proc)
    requires k.Shaped() && S.Inserted(k) != -1 && (proc.status == S.RUNNABLE || proc.status == S.SUSPENDED)
    ensures var i, k' := S.Inserted(k), S.InsertProc(k, proc);
            && S.IsPid(i) && k'.currpid == k.currpid && S.IsValid(k', i)
            && (forall p :: S.IsPid(p) && p != i ==> (S.IsValid(k', p) <==> S.IsValid(k, p)))
  {
    hide S.FirstUntaken, H.Insert;
  }

  lemma CreateTogether(k: S.Kernel, w: World, e: Event)
    requires Together(k, w) && P.Guarded(k, e.call) && e.call.Create? && Sets(k, w, e)
    ensures LegalRun(w, OwnSteps(k, e)) && Matched(Prepared(k, e.call), RunTo(w, OwnSteps(k, e)))
  {
    hide Sane, Built, LegalRun, RunTo, S.Inv, S.FirstUntaken;
    var i, k1 := S.Inserted(k), Prepared(k, e.call);
    if i == -1 {
      RunNone(w);
    } else {
      P.EmptySlot(k);
      InsertLives(k, S.Proc(-1, e.call.status, e.call.priority, true));
      hide S.InsertProc, S.Inserted;
      OneMore(k, k1, w, e.turn.mem, i, e.made);
      RunOne(w, ThreadRuns.Create(e.turn.mem, i, e.made));
    }
  }

  lemma RunNone(w: World)
    ensures LegalRun(w, []) && RunTo(w, []) == w
  {
  }

  lemma KillTogether(k: S.Kernel, w: World, e: Event)
    requires Together(k, w) && P.Guarded(k, e.call) && e.call.KillCall?
    ensures LegalRun(w, OwnSteps(k, e)) && Matched(Prepared(k, e.call), RunTo(w, OwnSteps(k, e)))
  {
    hide Sane, LegalRun, RunTo, S.Inv, H.Erase;
    var p, k1 := e.call.p, Prepared(k, e.call);
    RunNone(w);
    if S.IsValid(k, p) {
      assert forall q :: S.IsPid(q) && q != p ==> (S.IsValid(k1, q) <==> S.IsValid(k, q));
      OneLess(k, k1, w, p);
      RunOne(w, Forget(p));
    }
  }

  /** A call's own work keeps processes and threads together. */
  lemma OwnTogether(k: S.Kernel, w: World, e: Event)
    requires Together(k, w) && P.Guarded(k, e.call) && Sets(k, w, e)
    ensures S.NamesPid(e.call) && LegalRun(w, OwnSteps(k, e)) && Together(Prepared(k, e.call), RunTo(w, OwnSteps(k, e)))
  {
    hide Sane, S.Inv, Sets;
    PreparedKeeps(k, e.call);
    match e.call {
      case Create(_, _, _) => CreateTogether(k, w, e);
      case KillCall(p) => KillTogether(k, w, e);
      case _ =>
        hide H.Erase, H.Insert;
        SameThreads(k, Prepared(k, e.call), w);
        RunNone(w);
    }
    hide LegalRun, RunTo, Matched, Prepared;
    RunKeepsSane(w, OwnSteps(k, e));
  }

  // ---------- Events and runs ----------

  /** The call ends in a switch. */
  predicate Switches(k: S.Kernel, call: S.Call) {
    && k.Shaped() && S.NamesPid(call) && Reschedules(k, call)
    && var k1 := Prepared(k, call); k1.Shaped() && S.ListsPids(k1.heap) && !S.KeepsRunning(k1)
  }

  function Steps(k: S.Kernel, e: Event): seq<Step> {
    if !(k.Shaped() && S.NamesPid(e.call)) then []
    else OwnSteps(k, e) + if Switches(k, e.call) then SwitchSteps(Prepared(k, e.call), e.turn) else []
  }

  /** The call is guarded, and in memory everything is set up for the creation and the switch it asks for. */
  ghost predicate LegalEvent(k: S.Kernel, w: World, e: Event) {
    && P.Guarded(k, e.call) && P.SparesNull(e.call) && Sets(k, w, e)
    && (Switches(k, e.call) && LegalRun(w, OwnSteps(k, e)) ==>
          CallsTop(Prepared(k, e.call), RunTo(w, OwnSteps(k, e)), e.turn))
  }

  /** An event goes through and keeps processes and threads together. */
  lemma EventTogether(k: S.Kernel, w: World, e: Event)
    requires Together(k, w) && P.NullAlive(k) && LegalEvent(k, w, e)
    ensures S.Perform(k, e.call).Done? && P.NullAlive(S.Perform(k, e.call).k)
    ensures LegalRun(w, Steps(k, e)) && Together(S.Perform(k, e.call).k, RunTo(w, Steps(k, e)))
  {
    hide S.Inv, Sane, Matched, P.NullAlive, S.Perform, S.ListsPids, S.Resched, Prepared, Reschedules, OwnSteps, SwitchSteps,
         CallsTop, Sets, LegalRun, RunTo, S.KeepsRunning, P.SparesNull;
    P.InvLists(k);
    P.StepNeverFaults(k, e.call);
    PerformIsPrepared(k, e.call);
    OwnTogether(k, w, e);
    var k1, w1 := Prepared(k, e.call), RunTo(w, OwnSteps(k, e));
    if Switches(k, e.call) {
      ReschedTogether(k1, w1, e.turn);
      RunOn(w, OwnSteps(k, e), SwitchSteps(k1, e.turn));
    } else {
      if Reschedules(k, e.call) {
        ReschedKept(k1);
      }
      assert Steps(k, e) == OwnSteps(k, e);
    }
  }

  lemma ReschedKept(k: S.Kernel)
    requires k.Shaped() && S.ListsPids(k.heap) && S.KeepsRunning(k)
    ensures S.Resched(k) == S.Done(k, S.PROC_OK)
  {
  }

  function CallsOf(events: seq<Event>): seq<S.Call> {
    seq(|events|, i requires 0 <= i < |events| => events[i].call)
  }

  ghost function AllSteps(k: S.Kernel, events: seq<Event>): seq<Step>
    decreases |events|
  {
    if events == [] then []
    else
      var o := S.Perform(k, events[0].call);
      Steps(k, events[0]) + if o.Done? then AllSteps(o.k, events[1..]) else []
  }

  ghost predicate LegalEvents(k: S.Kernel, w: World, events: seq<Event>)
    decreases |events|
  {
    events == [] ||
    (&& LegalEvent(k, w, events[0])
     && var o := S.Perform(k, events[0].call);
        o.Done? && LegalRun(w, Steps(k, events[0])) ==> LegalEvents(o.k, RunTo(w, Steps(k, events[0])), events[1..]))
  }

  /** For every run: no call faults, every switch is legal, and at the end the current process has the processor
      while exactly the other live processes have intact parked threads. */
  lemma {:induction false} RunTogether(k: S.Kernel, w: World, events: seq<Event>)
    requires Together(k, w) && P.NullAlive(k) && LegalEvents(k, w, events)
    ensures P.Run(k, CallsOf(events)).Done? && P.NullAlive(P.Run(k, CallsOf(events)).k)
    ensures LegalRun(w, AllSteps(k, events))
    ensures Together(P.Run(k, CallsOf(events)).k, RunTo(w, AllSteps(k, events)))
    decreases |events|
  {
    hide Together, P.NullAlive, S.Perform, Steps, LegalEvent, LegalRun, RunTo;
    if events == [] {
      RunNone(w);
    } else {
      EventTogether(k, w, events[0]);
      var k1, w1 := S.Perform(k, events[0].call).k, RunTo(w, Steps(k, events[0]));
      RunTogether(k1, w1, events[1..]);
      RunOn(w, Steps(k, events[0]), AllSteps(k1, events[1..]));
      assert CallsOf(events)[1..] == CallsOf(events[1..]);
    }
  }

  /** Right after boot: the null process parked, the boot thread running. */
  lemma BootTogether(w: World)
    requires Sane(w) && |w.cells| == S.MAX_PROC_NUM && w.current == S.MAIN_PID && w.parked.Keys == {0}
    ensures Together(S.Boot(), w) && P.NullAlive(S.Boot())
  {
    P.BootState();
    P.BootKeeps();
    P.BootNull();
    hide Sane, S.Inv, S.Boot;
    assert forall p :: S.IsPid(p) && p > 1 ==> P.BootProcs()[p].status == S.NA;
  }

  // ---------- The code ----------

  /** The running thread has room for the call of `ctxswitch` on a stack of its own, up to `top`. */
  ghost predicate HasRoom(w: World, esp: int, top: int) {
    FRAME_SIZE + 8 <= esp <= top < WORD_LIMIT && esp % 4 == 0 && Unclaimed(w, esp - 8 - FRAME_SIZE, top)
  }

  lemma CallPushed(w: World, m: Memory, esp: Word, top: int, c: Context, m': Memory, next: int)
    requires Sane(w) && Undisturbed(w, m) && HasRoom(w, esp, top) && c.esp == esp - 8
    requires m' == m[esp - 4 := w.Cell(next)][esp - 8 := w.Cell(w.current)][esp - 12 := c.eip]
    ensures Undisturbed(w, m') && Calls(w, m', c, top, w.Cell(next))
  {
    hide Sane, Undisturbed;
    StaysUndisturbed(w, m, m', esp - 8 - FRAME_SIZE, top);
  }

  lemma SwitchesToTop(k: S.Kernel)
    requires k.Shaped() && S.ListsPids(k.heap) && S.Resched(k).Done? && !S.KeepsRunning(k)
    ensures k.heap != [] && S.IsPid(k.heap[0].val) && S.Resched(k).k.currpid == k.heap[0].val
  {
    assert k.heap[0] in multiset(k.heap);
    hide H.Insert, H.Dequeue, S.KeepsRunning;
  }

  /** `ctxswitch(&from->_sp, &to->_sp)`, called with return address `back`. */
  method CallSwitch(cpu: Cpu, fromCell: Word, toCell: Word, back: Word, ghost k: S.Kernel, ghost w: World, ghost top: int)
    returns (ghost turn: Turn)
    requires Together(k, w) && k.heap != [] && fromCell == w.Cell(w.current) && toCell == w.Cell(k.heap[0].val)
    requires Undisturbed(w, cpu.mem) && HasRoom(w, cpu.esp, top)
    modifies cpu
    ensures CallsTop(k, w, turn) && turn.next == k.heap[0].val
    ensures var t := if turn.next in w.parked then w.parked[turn.next] else Departing(turn);
            Continues(cpu, t, old(cpu.flags))
  {
    hide S.Inv, Sane, Undisturbed, Unclaimed, Matched, Saved, Continues;
    ghost var m, e := cpu.mem, cpu.esp;
    cpu.Push(toCell);
    cpu.Push(fromCell);
    ghost var caller := cpu.Now().(eip := back);
    cpu.Push(back);
    turn := Turn(cpu.mem, caller, top, k.heap[0].val);
    CallPushed(w, m, e, top, caller, cpu.mem, turn.next);
    TopCanRun(k, w, turn);
    NotParked(w);
    TakeTurn(cpu, w, turn);
  }

  /** `resched` on the table and on the machine: if it switches, the processor continues the thread of the process
      it picked, exactly as that thread was parked. */
  method Reschedule(table: ProcEntryTable, cpu: Cpu, cells: seq<Word>, back: Word, ghost w: World, ghost top: int)
    returns (switched: bool, ghost turn: Turn)
    requires table.Valid() && Together(table.Model(), w) && S.Resched(table.Model()).Done?
    requires cells == w.cells && Undisturbed(w, cpu.mem) && HasRoom(w, cpu.esp, top)
    modifies cpu, table, table.procs, table.ready, table.ready.queue, table.ready.queue.mem
    ensures table.Valid() && table.Model() == S.Resched(old(table.Model())).k
    ensures switched == !S.KeepsRunning(old(table.Model()))
    ensures !switched ==> cpu.Now() == old(cpu.Now()) && cpu.mem == old(cpu.mem)
    ensures switched ==>
              var t := if table.currpid in w.parked then w.parked[table.currpid] else Departing(turn);
              Continues(cpu, t, old(cpu.flags))
    ensures LegalRun(w, SwitchSteps(old(table.Model()), turn))
    ensures Together(table.Model(), RunTo(w, SwitchSteps(old(table.Model()), turn)))
  {
    hide S.Inv, Sane, Undisturbed, Unclaimed, HasRoom, Continues, S.ListsPids, LegalRun, RunTo, CallsTop,
         S.Resched, S.KeepsRunning, H.Heap, Legal, SwitchSteps;
    ghost var k := table.Model();
    var oldpid := table.currpid;
    switched := table.Resched();
    turn := Turn(cpu.mem, cpu.Now(), top, oldpid);
    if switched {
      SwitchesToTop(k);
      turn := CallSwitch(cpu, cells[oldpid], cells[table.currpid], back, k, w, top);
    }
    ReschedTogether(k, w, turn);
  }

  function ParkedAs(w: World, i: int): Maybe {
    if i in w.parked then Just(w.parked[i]) else Nothing
  }

  /** After any run, a switch by `resched` to another process continues its thread as it was created or last gave
      up the processor. */
  method RescheduleAfterRun(table: ProcEntryTable, cpu: Cpu, cells: seq<Word>, back: Word, ghost top: int,
                            ghost k: S.Kernel, ghost w: World, ghost events: seq<Event>)
    returns (switched: bool, ghost turn: Turn)
    requires Together(k, w) && P.NullAlive(k) && LegalEvents(k, w, events)
    requires table.Valid() && P.Run(k, CallsOf(events)) == S.Done(table.Model(), S.PROC_OK)
    requires LegalRun(w, AllSteps(k, events))
    requires var now := RunTo(w, AllSteps(k, events));
             cells == now.cells && Undisturbed(now, cpu.mem) && HasRoom(now, cpu.esp, top)
    modifies cpu, table, table.procs, table.ready, table.ready.queue, table.ready.queue.mem
    ensures table.Valid() && S.Resched(old(table.Model())) == S.Done(table.Model(), S.PROC_OK)
    ensures switched == !S.KeepsRunning(old(table.Model()))
    ensures switched && table.currpid != old(table.currpid) ==>
              var left := Departed(w.current, AllSteps(k, events), table.currpid, ParkedAs(w, table.currpid));
              left.Just? && Continues(cpu, left.t, old(cpu.flags))
  {
    hide S.Inv, Sane, Undisturbed, HasRoom, Continues, S.ListsPids, LegalRun, RunTo, Departed, LegalEvents, AllSteps, P.Run,
         S.Resched, S.KeepsRunning, SwitchSteps, P.NullAlive;
    RunTogether(k, w, events);
    ghost var now := RunTo(w, AllSteps(k, events));
    ghost var before := table.Model();
    P.ReschedNeverFaults(before);
    switched, turn := Reschedule(table, cpu, cells, back, now, top);
    if switched && table.currpid != before.currpid {
      PickedIsParked(before, now);
      RunParksDepartures(w, AllSteps(k, events), table.currpid, ParkedAs(w, table.currpid));
    }
  }

  lemma PickedIsParked(k: S.Kernel, w: World)
    requires k.Shaped() && S.ListsPids(k.heap) && Together(k, w) && S.Resched(k).Done? && !S.KeepsRunning(k)
    requires S.Resched(k).k.currpid != k.currpid
    ensures S.Resched(k).k.currpid in w.parked
  {
    hide S.Inv, Sane, S.ListsPids, S.KeepsRunning, S.Resched;
    SwitchesToTop(k);
    P.TopIsListed(k);
  }
}
