/** Whole runs of process calls on the table in memory, from boot on. */
module KernelRuns {
  import opened MaxHeap
  import H = MaxHeap
  import S = Scheduler
  import P = SchedulerProofs
  import opened ProcTable

  /** What a call returns: a pid, a code, or nothing. */
  datatype Reply = Pid(id: int) | Status(code: S.Code) | Nothing

  function Answer(k: S.Kernel, call: S.Call): Reply {
    match call
    case Create(_, _, _) => if k.Shaped() then Pid(S.Inserted(k)) else Nothing
    case Timer => Nothing
    case _ => var o := S.Perform(k, call); if o.Done? then Status(o.code) else Nothing
  }

  /** What a caller learns: the pid is the lowest free slot, -1 if there is none; the codes tell whether the process
      existed, and `ready` refuses one that is runnable already. */
  lemma AnswerMeans(k: S.Kernel, call: S.Call)
    requires S.Inv(k) && S.ListsPids(k.heap) && S.Perform(k, call).Done?
    ensures call.Create? ==>
              var i := Answer(k, call).id;
              if i == -1 then forall j :: 0 <= j < 1024 ==> k.taken[j]
              else 0 <= i < 1024 && !k.taken[i] && forall j :: 0 <= j < i ==> k.taken[j]
    ensures call.SuspendCall? || call.KillCall? ==>
              Answer(k, call) == Status(if k.procs[call.p].status in {S.DEAD, S.NA} then S.PROC_NEX else S.PROC_OK)
    ensures call.ReadyCall? ==>
              Answer(k, call) == Status(if k.procs[call.p].status in {S.DEAD, S.NA} then S.PROC_NEX
                                        else if k.procs[call.p].status == S.RUNNABLE then S.PROC_ERR else S.PROC_OK)
    ensures call.Timer? ==> Answer(k, call) == Nothing
  {
    hide H.Insert, H.Erase, H.Heap;
  }

  ghost function Answers(k: S.Kernel, calls: seq<S.Call>): seq<Reply>
    decreases |calls|
  {
    if calls == [] then []
    else
      var o := S.Perform(k, calls[0]);
      [Answer(k, calls[0])] + if o.Fault? then [] else Answers(o.k, calls[1..])
  }

  /** One call on the table. */
  method ServeOne(table: ProcEntryTable, call: S.Call) returns (reply: Reply)
    requires table.Valid() && S.Inv(table.Model()) && P.NullAlive(table.Model())
    requires P.Guarded(table.Model(), call) && P.SparesNull(call)
    modifies table, table.procs, table.taken, table.ready, table.ready.queue, table.ready.queue.mem
    ensures table.Valid() && (table.ready.queue.mem == old(table.ready.queue.mem) || fresh(table.ready.queue.mem))
    ensures var o := S.Perform(old(table.Model()), call); o.Done? && table.Model() == o.k
    ensures S.Inv(table.Model()) && P.NullAlive(table.Model())
    ensures reply == Answer(old(table.Model()), call)
  {
    ghost var k := table.Model();
    P.StepKeeps(k, call);
    P.StepNeverFaults(k, call);
    hide S.Inv, P.NullAlive, S.Resched, S.InsertProc, S.Suspend, S.Ready, S.Kill, S.ListsPids, Heap;
    match call
    case Create(priority, status, doResched) =>
      var pid := table.Insert(S.Proc(-1, status, priority, true));
      if doResched {
        var switched := table.Resched();
      }
      reply := Pid(pid);
    case SuspendCall(p) =>
      var code := table.Suspend(p);
      reply := Status(code);
    case KillCall(p) =>
      var code := table.Kill(p);
      reply := Status(code);
    case ReadyCall(p) =>
      var code := table.Ready(p);
      reply := Status(code);
    case Timer =>
      var switched := table.Resched();
      reply := Nothing;
  }

  /** A guarded run that spares the null process goes through without a fault, keeps every data structure in
      agreement, and ends in the state of the abstract run. */
  method Serve(table: ProcEntryTable, calls: seq<S.Call>) returns (replies: seq<Reply>)
    requires table.Valid() && S.Inv(table.Model()) && P.NullAlive(table.Model())
    requires P.RunGuarded(table.Model(), calls)
    requires forall i :: 0 <= i < |calls| ==> P.SparesNull(calls[i])
    modifies table, table.procs, table.taken, table.ready, table.ready.queue, table.ready.queue.mem
    ensures table.Valid() && S.Inv(table.Model())
    ensures var o := P.Run(old(table.Model()), calls); o.Done? && table.Model() == o.k
    ensures replies == Answers(old(table.Model()), calls)
    decreases |calls|
  {
    hide S.Inv, P.NullAlive, S.Perform, S.ListsPids, Heap, Answer;
    replies := [];
    if calls != [] {
      var reply := ServeOne(table, calls[0]);
      var rest := Serve(table, calls[1..]);
      replies := [reply] + rest;
    }
  }

  /** From `processes::init` on. */
  method ServeFromBoot(calls: seq<S.Call>) returns (table: ProcEntryTable, replies: seq<Reply>)
    requires P.RunGuarded(S.Boot(), calls)
    requires forall i :: 0 <= i < |calls| ==> P.SparesNull(calls[i])
    ensures table.Valid() && S.Inv(table.Model())
    ensures var o := P.Run(S.Boot(), calls); o.Done? && table.Model() == o.k
    ensures replies == Answers(S.Boot(), calls)
  {
    hide S.Inv, S.Boot, P.NullAlive, P.RunGuarded, P.Run, Answers;
    P.BootKeeps();
    P.BootNull();
    table := Init();
    replies := Serve(table, calls);
  }
}
