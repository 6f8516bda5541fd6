/** Any interleaving of thread creations, switches and exits, among any number of threads. */
module ThreadRuns {
  import opened MachineWords
  import opened ContextSwitch
  import opened ContextRuns

  /** The running thread calls `ctxswitch`; or it has worked until memory is `mem`, in which thread `made` stands
      ready behind cell `id`; or thread `id` has been killed and its stack is no longer looked after. */
  datatype Step = Switch(turn: Turn) | Create(mem: Memory, id: int, made: Thread) | Forget(id: int)

  ghost predicate LegalStep(w: World, step: Step) {
    match step
    case Switch(turn) => Legal(w, turn)
    case Create(m, id, t) => Joins(w, m, id, t)
    case Forget(_) => true
  }

  function AfterStep(w: World, step: Step): World
    requires step.Switch? ==> FRAME_SIZE <= step.turn.caller.esp
  {
    match step
    case Switch(turn) => After(w, turn)
    case Create(m, id, t) => WithThread(w, m, id, t)
    case Forget(id) => w.(parked := w.parked - {id})
  }

  lemma StepKeepsSane(w: World, step: Step)
    requires Sane(w) && LegalStep(w, step)
    ensures Sane(AfterStep(w, step))
  {
    hide Sane, Joins, Saved, Intact;
    match step
    case Switch(turn) => SwitchKeepsSane(w, turn);
    case Create(m, id, t) => CreateKeepsSane(w, m, id, t);
    case Forget(id) => ForgetKeepsSane(w, id);
  }

  // ---------- Runs ----------

  ghost predicate LegalRun(w: World, steps: seq<Step>)
    decreases |steps|
  {
    steps == [] || (LegalStep(w, steps[0]) && LegalRun(AfterStep(w, steps[0]), steps[1..]))
  }

  ghost function RunTo(w: World, steps: seq<Step>): World
    requires LegalRun(w, steps)
    decreases |steps|
  {
    if steps == [] then w else RunTo(AfterStep(w, steps[0]), steps[1..])
  }

  datatype Maybe = Nothing | Just(t: Thread)

  /** Thread i as it was when it was created or last gave up the processor, `start` if neither happened. */
  function Departed(current: int, steps: seq<Step>, i: int, start: Maybe): Maybe
    decreases |steps|
  {
    if steps == [] then start
    else
      var current' := if steps[0].Switch? then steps[0].turn.next else current;
      Departed(current', steps[1..], i, DepartedIn(current, steps[0], i, start))
  }

  /** What is known of thread i after one step. */
  function DepartedIn(current: int, step: Step, i: int, start: Maybe): Maybe {
    if step.Switch? && i == current then Just(Departing(step.turn))
    else if step.Create? && i == step.id then Just(step.made)
    else start
  }

  /** For any interleaving, every thread that is not running is parked as it left or was created. */
  lemma {:induction false} RunParksDepartures(w: World, steps: seq<Step>, i: int, start: Maybe)
    requires Sane(w) && LegalRun(w, steps)
    requires i in RunTo(w, steps).parked
    requires i in w.parked ==> start == Just(w.parked[i])
    ensures Departed(w.current, steps, i, start) == Just(RunTo(w, steps).parked[i])
    decreases |steps|
  {
    hide Sane, Saved, Joins, Undisturbed, Unclaimed;
    NotParked(w);
    if steps != [] {
      StepKeepsSane(w, steps[0]);
      var w' := AfterStep(w, steps[0]);
      RunParksDepartures(w', steps[1..], i, DepartedIn(w.current, steps[0], i, start));
    }
  }

  lemma {:induction false} RunKeepsSane(w: World, steps: seq<Step>)
    requires Sane(w) && LegalRun(w, steps)
    ensures Sane(RunTo(w, steps))
    decreases |steps|
  {
    hide Sane, Saved, Joins, Undisturbed, Unclaimed;
    if steps != [] {
      StepKeepsSane(w, steps[0]);
      RunKeepsSane(AfterStep(w, steps[0]), steps[1..]);
    }
  }

  lemma {:induction false} RunOn(w: World, steps: seq<Step>, more: seq<Step>)
    requires LegalRun(w, steps) && LegalRun(RunTo(w, steps), more)
    ensures LegalRun(w, steps + more) && RunTo(w, steps + more) == RunTo(RunTo(w, steps), more)
    decreases |steps|
  {
    hide Undisturbed, Unclaimed, Joins, Saved;
    if steps == [] {
      assert steps + more == more;
    } else {
      assert (steps + more)[1..] == steps[1..] + more;
      RunOn(AfterStep(w, steps[0]), steps[1..], more);
    }
  }

  lemma NotParked(w: World)
    requires Sane(w)
    ensures w.current !in w.parked
  {
  }

  /** Switching away and, after any run, back: the thread continues as it left. */
  method SwitchBack(cpu: Cpu, ghost w: World, ghost steps: seq<Step>, ghost start: Maybe, ghost turn: Turn)
    requires Sane(w) && LegalRun(w, steps) && Legal(RunTo(w, steps), turn)
    requires turn.next in RunTo(w, steps).parked
    requires turn.next in w.parked ==> start == Just(w.parked[turn.next])
    requires cpu.mem == turn.mem && cpu.CallsFrom(turn.caller)
    modifies cpu
    ensures cpu.mem == After(RunTo(w, steps), turn).mem
    ensures var left := Departed(w.current, steps, turn.next, start);
            left.Just? && Continues(cpu, left.t, turn.caller.flags)
  {
    hide Sane, LegalRun, RunTo, Departed, Saved, Continues, Undisturbed;
    RunParksDepartures(w, steps, turn.next, start);
    RunKeepsSane(w, steps);
    NotParked(RunTo(w, steps));
    TakeTurn(cpu, RunTo(w, steps), turn);
  }

  // ---------- New threads ----------

  /** The thread that `create_stack` has set up and that never ran: it starts at `code`, called as if by the
      exit routine with the arguments `args`. */
  ghost predicate NewThread(t: Thread, code: Word, stack: int, userret: Word, args: seq<Word>) {
    && 48 + 4 * |args| <= stack < WORD_LIMIT
    && t.c == StartOf(code, stack, |args|) && t.top == stack + 4
    && Load(t.stack, t.c.esp) == userret
    && (forall i :: 0 <= i < |args| ==> Load(t.stack, Slot(t.c.esp + 4, i)) == args[i])
  }

  /** What the machine looks like when that thread first runs. */
  ghost predicate Started(cpu: Cpu, code: Word, stack: int, userret: Word, args: seq<Word>)
    reads cpu
  {
    && cpu.eip == code && cpu.esp == stack - 4 * |args| && cpu.ebp == cpu.esp - 8
    && cpu.eax == cpu.ecx == cpu.edx == cpu.ebx == cpu.esi == cpu.edi == 0
    && cpu.flags & 0x200 == 0x200
    && Load(cpu.mem, cpu.esp) == userret
    && (forall i :: 0 <= i < |args| ==> Load(cpu.mem, Slot(cpu.esp + 4, i)) == args[i])
  }

  lemma NewThreadStarts(cpu: Cpu, t: Thread, flags: bv32, code: Word, stack: int, userret: Word, args: seq<Word>)
    requires NewThread(t, code, stack, userret, args) && Continues(cpu, t, flags)
    ensures Started(cpu, code, stack, userret, args)
  {
    StartsWithInterrupts(code, stack, |args|, flags);
    hide ResumedFlags;
    forall i | 0 <= i < |args|
      ensures Load(cpu.mem, Slot(cpu.esp + 4, i)) == args[i]
    {
      assert t.c.esp <= Slot(t.c.esp + 4, i) < t.top;
    }
  }

  /** The lowest byte that `create_stack` writes. */
  function LowestByte(stack: int, nargs: nat): int { stack - 4 * nargs - FRAME_SIZE }

  /** Writes to unclaimed bytes disturb nobody. */
  lemma StaysUndisturbed(w: World, m: Memory, m': Memory, lo: int, hi: int)
    requires Sane(w) && Undisturbed(w, m) && Unclaimed(w, lo, hi)
    requires forall a :: !(lo <= a < hi) ==> Load(m', a) == Load(m, a)
    ensures Undisturbed(w, m')
  {
    hide Intact;
    forall i | i in w.parked
      ensures Load(m', w.Cell(i)) == w.Sp(i)
    {
      assert w.Cell(i) == w.cells[i];
    }
  }

  /** Neither does a write to the cell of a thread that is not parked. */
  lemma CellWritten(w: World, m: Memory, id: int, sp: Word)
    requires Sane(w) && Undisturbed(w, m) && 0 <= id < |w.cells| && id !in w.parked
    ensures Undisturbed(w, m[w.Cell(id) := sp])
  {
    hide Intact;
    forall i | i in w.parked
      ensures w.Cell(i) != w.Cell(id) && !w.Owns(i, w.Cell(id))
    {
      assert w.Cell(i) == w.cells[i] && w.Cell(id) == w.cells[id];
    }
  }

  /** The running thread creates a thread: `create_stack`, then its stack pointer goes into its cell. */
  method Spawn(ghost w: World, ghost id: int, m: Memory, cell: Word, code: Word, stack: Word, args: seq<Word>,
               argstart: Word, userret: Word)
    returns (m': Memory, ghost t: Thread)
    requires Sane(w) && Undisturbed(w, m)
    requires 0 <= id < |w.cells| && id != w.current && id !in w.parked && cell == w.Cell(id)
    requires stack % 4 == 0 && 48 + 4 * |args| <= stack
    requires forall i :: 0 <= i < |args| ==> Load(m, Slot(argstart, i)) == args[i]
    requires argstart + 4 * |args| <= LowestByte(stack, |args|) || stack < argstart
    requires Unclaimed(w, LowestByte(stack, |args|), stack + 4)
    ensures LegalStep(w, Create(m', id, t)) && NewThread(t, code, stack, userret, args)
    ensures t.top == stack + 4 && Load(m', cell) == LowestByte(stack, |args|)
    ensures forall a :: !(LowestByte(stack, |args|) <= a < stack + 4) && a != cell ==> Load(m', a) == Load(m, a)
  {
    var sp;
    m', sp := CreateStack(m, code, stack, |args|, argstart, userret);
    assert sp == LowestByte(stack, |args|);
    t := Thread(StartOf(code, stack, |args|), stack + 4, m');
    assert NewThread(t, code, stack, userret, args);
    ghost var built := m';
    assert Intact(built, sp, t);
    assert !(sp <= cell < stack + 4);
    hide FrameAt, NewThread, StartOf, Unclaimed, Undisturbed, Sane;
    m' := m'[cell := sp];
    SameThread(built, m', sp, t);
    hide Intact;
    StaysUndisturbed(w, m, built, sp, stack + 4);
    CellWritten(w, built, id, sp);
  }

  /** The step does not concern thread i, unless it is the running one. */
  predicate Spares(step: Step, i: int) {
    if step.Switch? then step.turn.next != i else step.id != i
  }

  lemma {:induction false} StaysParked(w: World, steps: seq<Step>, i: int)
    requires LegalRun(w, steps) && i in w.parked && i != w.current
    requires forall k :: 0 <= k < |steps| ==> Spares(steps[k], i)
    ensures i in RunTo(w, steps).parked && RunTo(w, steps).parked[i] == w.parked[i]
    decreases |steps|
  {
    hide Undisturbed, Unclaimed, Saved, Joins;
    if steps != [] {
      assert Spares(steps[0], i);
      StaysParked(AfterStep(w, steps[0]), steps[1..], i);
    }
  }

  /** The first switch into a new thread, after any run of the others: at `code`, interrupts on, ESP at the exit
      routine's slot and the arguments above it in order. */
  method FirstSwitch(cpu: Cpu, ghost w: World, ghost steps: seq<Step>, ghost turn: Turn,
                     ghost code: Word, ghost stack: int, ghost userret: Word, ghost args: seq<Word>)
    requires Sane(w) && LegalRun(w, steps) && Legal(RunTo(w, steps), turn)
    requires turn.next in w.parked && NewThread(w.parked[turn.next], code, stack, userret, args)
    requires forall k :: 0 <= k < |steps| ==> Spares(steps[k], turn.next)
    requires cpu.mem == turn.mem && cpu.CallsFrom(turn.caller)
    modifies cpu
    ensures cpu.mem == After(RunTo(w, steps), turn).mem
    ensures Started(cpu, code, stack, userret, args)
  {
    hide Sane, Started, NewThread, Continues, Legal, LegalRun, RunTo, Saved;
    NotParked(w);
    StaysParked(w, steps, turn.next);
    RunKeepsSane(w, steps);
    NotParked(RunTo(w, steps));
    ghost var t := w.parked[turn.next];
    TakeTurn(cpu, RunTo(w, steps), turn);
    NewThreadStarts(cpu, t, turn.caller.flags, code, stack, userret, args);
  }

  /** A call set up for a thread that has just joined is a legal turn. */
  lemma StaysLegal(w: World, m: Memory, c: Context, top: int, id: int, t: Thread)
    requires Sane(w) && Joins(w, m, id, t) && Calls(w, m, c, top, w.Cell(id))
    requires t.top <= c.esp - FRAME_SIZE || top <= Load(m, w.Cell(id))
    ensures Legal(WithThread(w, m, id, t), Turn(m, c, top, id))
  {
    hide Intact;
    var w' := WithThread(w, m, id, t);
    forall i, a | i in w'.parked && w'.Owns(i, a)
      ensures !(c.esp - FRAME_SIZE <= a < top)
    {
      if i in w.parked {
        assert w'.Cell(i) == w.Cell(i) && w.Owns(i, a);
      }
    }
  }

  /** Creating a thread and switching straight into it. */
  method StartThread(cpu: Cpu, ghost w: World, ghost caller: Context, ghost top: int, ghost id: int,
                     cell: Word, code: Word, stack: Word, args: seq<Word>, argstart: Word, userret: Word)
    requires Sane(w) && Undisturbed(w, cpu.mem) && Calls(w, cpu.mem, caller, top, cell)
    requires cpu.CallsFrom(caller)
    requires 0 <= id < |w.cells| && id != w.current && id !in w.parked && cell == w.Cell(id)
    requires stack % 4 == 0 && 48 + 4 * |args| <= stack
    requires forall i :: 0 <= i < |args| ==> Load(cpu.mem, Slot(argstart, i)) == args[i]
    requires argstart + 4 * |args| <= LowestByte(stack, |args|) || stack < argstart
    requires Unclaimed(w, LowestByte(stack, |args|), stack + 4)
    requires stack + 4 <= caller.esp - FRAME_SIZE || top <= LowestByte(stack, |args|)
    modifies cpu
    ensures Started(cpu, code, stack, userret, args)
  {
    hide Sane, Started, NewThread, Undisturbed;
    ghost var t;
    cpu.mem, t := Spawn(w, id, cpu.mem, cell, code, stack, args, argstart, userret);
    hide Joins;
    CreateKeepsSane(w, cpu.mem, id, t);
    StaysLegal(w, cpu.mem, caller, top, id, t);
    FirstSwitch(cpu, WithThread(w, cpu.mem, id, t), [], Turn(cpu.mem, caller, top, id), code, stack, userret, args);
  }
}
