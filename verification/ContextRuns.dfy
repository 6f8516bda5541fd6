/** New stacks that `create_stack` sets up, and one switch among any number of threads. */
module ContextRuns {
  import opened MachineWords
  import opened ContextSwitch

  // ---------- create_stack ----------

  /** Where a thread starts that `create_stack` set up: at `code`, with ESP at the slot of the exit routine. */
  function StartOf(code: Word, stack: int, nargs: nat): Context
    requires 48 + 4 * nargs <= stack < WORD_LIMIT
  {
    var slot := stack - 4 * nargs - 4;
    Context(0, 0, 0, 0, 0, 0, slot - 4, slot + 4, code, INTERRUPT_FLAG)
  }

  function Slot(base: int, i: int): int { base + 4 * i }

  /** Words follow each other at a distance of four bytes. */
  lemma SlotInBytes(base: int, i: int)
    ensures Slot(base, 0) == base && Slot(base, i + 1) == Slot(base, i) + 4
  {
  }

  /** The argument loop: `nargs` words copied downwards from the top, the first one lowest. */
  method PushArgs(m: Memory, stack: Word, nargs: nat, argstart: Word) returns (m': Memory, top: int)
    requires 4 * nargs <= stack
    requires argstart + 4 * nargs <= stack - 4 * nargs || stack < argstart
    ensures top == stack - 4 * nargs
    ensures forall i :: 0 <= i < nargs ==> Load(m', Slot(top + 4, i)) == Load(m, Slot(argstart, i))
    ensures forall a :: !(top < a <= stack) ==> Load(m', a) == Load(m, a)
  {
    m' := m;
    top := stack;
    var argcurr := argstart + 4 * (nargs - 1);
    for i := 0 to nargs
      invariant top == stack - 4 * i && argcurr == argstart + 4 * (nargs - 1 - i)
      invariant forall k :: nargs - i <= k < nargs ==>
                  Load(m', Slot(stack - 4 * nargs + 4, k)) == Load(m, Slot(argstart, k))
      invariant forall a :: !(top < a <= stack) ==> Load(m', a) == Load(m, a)
    {
      m' := m'[top := Load(m', argcurr)];
      top, argcurr := top - 4, argcurr - 4;
    }
  }

  /** The eleven stores at the end of `create_stack`. */
  function Forged(m: Memory, top: int, code: Word): (r: Memory)
    requires 40 <= top < WORD_LIMIT
  {
    m[top := code][top - 4 := top - 4][top - 8 := 0x200]
    [top - 12 := 0][top - 16 := 0][top - 20 := 0][top - 24 := 0]
    [top - 28 := top - 8][top - 32 := top - 4][top - 36 := 0][top - 40 := 0]
  }

  lemma ForgedFrame(m: Memory, top: int, code: Word)
    requires 40 <= top < WORD_LIMIT - 4 && top % 4 == 0
    ensures FrameAt(Forged(m, top, code), top - 40,
                    Context(0, 0, 0, 0, 0, 0, top - 4, top + 4, code, INTERRUPT_FLAG))
  {
  }

  lemma ForgedSpares(m: Memory, top: int, code: Word)
    requires 40 <= top < WORD_LIMIT
    ensures forall a :: !(top - 40 <= a <= top) ==> Load(Forged(m, top, code), a) == Load(m, a)
  {
  }

  /** The frame of a new thread: `code` as return address, interrupts on, the exit routine as the caller
      of `code`, and the arguments above it in order. */
  method CreateStack(m: Memory, code: Word, stack: Word, nargs: nat, argstart: Word, userret: Word)
    returns (m': Memory, sp: Word)
    requires stack % 4 == 0 && 48 + 4 * nargs <= stack
    requires argstart + 4 * nargs <= stack - 4 * nargs - 44 || stack < argstart
    ensures FrameAt(m', sp, StartOf(code, stack, nargs))
    ensures var esp := StartOf(code, stack, nargs).esp;
            && Load(m', esp) == userret
            && (forall i :: 0 <= i < nargs ==> Load(m', Slot(esp + 4, i)) == Load(m, Slot(argstart, i)))
    ensures forall a :: !(sp <= a <= stack) ==> Load(m', a) == Load(m, a)
  {
    hide Forged, FrameAt;
    var top;
    m', top := PushArgs(m, stack, nargs, argstart);
    m' := m'[top := userret];
    top := top - 4;
    ForgedFrame(m', top, code);
    ForgedSpares(m', top, code);
    m' := Forged(m', top, code);
    sp := top - 40;
  }

  /** A new thread runs with interrupts enabled. */
  lemma StartsWithInterrupts(code: Word, stack: int, nargs: nat, current: bv32)
    requires 48 + 4 * nargs <= stack < WORD_LIMIT
    ensures Resumed(StartOf(code, stack, nargs), current).flags & INTERRUPT_FLAG == INTERRUPT_FLAG
  {
  }

  // ---------- Interleavings ----------

  /** A thread that is not running: its context, and the part of its stack, from ESP up to `top`, that it
      counts on, as it was in memory `stack` when the thread left. */
  datatype Thread = Thread(c: Context, top: int, stack: Memory)

  /** The thread can be continued from the frame at `sp`, and its stack is as it left it. */
  ghost predicate Intact(m: Memory, sp: int, t: Thread) {
    && FrameAt(m, sp, t.c) && t.c.esp <= t.top
    && (forall a :: t.c.esp <= a < t.top ==> Load(m, a) == Load(t.stack, a))
  }

  /** One processor and many threads. `cells[i]` is the address of thread i's saved stack pointer;
      `parked` records every thread that is not running. */
  datatype World = World(mem: Memory, cells: seq<Word>, current: int, parked: map<int, Thread>) {
    function Cell(i: int): Word {
      if 0 <= i < |cells| then cells[i] else 0
    }

    function Sp(i: int): Word {
      Load(mem, Cell(i))
    }

    /** The bytes that belong to parked thread i: its frame and the stack it counts on. */
    predicate Owns(i: int, a: int)
      requires i in parked
    {
      Sp(i) <= a < parked[i].top
    }
  }

  /** The running thread has worked until memory is `mem` and its registers are `caller`, and now calls
      `ctxswitch` for thread `next`. It counts on its stack up to `top`. */
  datatype Turn = Turn(mem: Memory, caller: Context, top: int, next: int)

  ghost predicate Sane(w: World) {
    && 0 <= w.current < |w.cells| && w.current !in w.parked
    && (forall i, j :: 0 <= i < j < |w.cells| ==> w.cells[i] != w.cells[j])
    && (forall j :: 0 <= j < |w.cells| ==> w.cells[j] % 4 == 0)
    && (forall i :: i in w.parked ==> 0 <= i < |w.cells|)
    && (forall i :: i in w.parked ==> Intact(w.mem, w.Sp(i), w.parked[i]))
    && (forall i, j :: i in w.parked && 0 <= j < |w.cells| ==> !w.Owns(i, w.cells[j]))
  }

  /** A single thread starts out sane. */
  lemma AloneIsSane(m: Memory, cells: seq<Word>, current: int)
    requires 0 <= current < |cells| && forall i, j :: 0 <= i < j < |cells| ==> cells[i] != cells[j]
    requires forall j :: 0 <= j < |cells| ==> cells[j] % 4 == 0
    ensures Sane(World(m, cells, current, map[]))
  {
  }

  /** The thread left the frames, stacks and cells of the parked threads alone. */
  ghost predicate Undisturbed(w: World, m: Memory) {
    && (forall i :: i in w.parked ==> Load(m, w.Cell(i)) == w.Sp(i))
    && (forall i, a :: i in w.parked && w.Owns(i, a) ==> Load(m, a) == Load(w.mem, a))
  }

  /** The bytes `[lo, hi)` are no cell and belong to no parked thread. */
  ghost predicate Unclaimed(w: World, lo: int, hi: int) {
    && (forall i, a :: i in w.parked && w.Owns(i, a) ==> !(lo <= a < hi))
    && (forall j :: 0 <= j < |w.cells| ==> !(lo <= w.cells[j] < hi))
  }

  /** The call of `ctxswitch` is set up: return address and the cell addresses on a stack of its own. */
  ghost predicate Calls(w: World, m: Memory, c: Context, top: int, cell: Word) {
    && FRAME_SIZE <= c.esp && c.esp + 8 <= top < WORD_LIMIT && c.esp % 4 == 0
    && Load(m, c.esp - 4) == c.eip && Load(m, c.esp) == w.Cell(w.current) && Load(m, c.esp + 4) == cell
    && Unclaimed(w, c.esp - FRAME_SIZE, top)
  }

  ghost predicate Legal(w: World, turn: Turn) {
    && (turn.next == w.current || turn.next in w.parked)
    && Undisturbed(w, turn.mem) && Calls(w, turn.mem, turn.caller, turn.top, w.Cell(turn.next))
  }

  function Departing(turn: Turn): Thread {
    Thread(turn.caller, turn.top, turn.mem)
  }

  function After(w: World, turn: Turn): World
    requires FRAME_SIZE <= turn.caller.esp
  {
    World(Saved(turn.mem, turn.caller, w.Cell(w.current)), w.cells, turn.next,
          w.parked[w.current := Departing(turn)] - {turn.next})
  }

  lemma PushedFrame(m: Memory, c: Context)
    requires FRAME_SIZE <= c.esp && c.esp % 4 == 0 && Load(m, c.esp - 4) == c.eip
    ensures FrameAt(Pushed(m, c), c.esp - FRAME_SIZE, c)
  {
    hide PushedFlags;
  }

  /** The departing thread is intact behind its cell. */
  lemma OwnThread(turn: Turn, cell: int)
    requires var c := turn.caller;
             && FRAME_SIZE <= c.esp <= turn.top && c.esp % 4 == 0 && Load(turn.mem, c.esp - 4) == c.eip
             && !(c.esp - FRAME_SIZE <= cell < turn.top)
    ensures var c, m := turn.caller, Saved(turn.mem, turn.caller, cell);
            Intact(m, c.esp - FRAME_SIZE, Departing(turn)) && Load(m, cell) == c.esp - FRAME_SIZE
  {
    hide Pushed, FrameAt;
    var c := turn.caller;
    PushedFrame(turn.mem, c);
    SameFrame(Pushed(turn.mem, c), Saved(turn.mem, c, cell), c.esp - FRAME_SIZE, c);
    forall a | c.esp <= a < turn.top
      ensures Load(Saved(turn.mem, c, cell), a) == Load(turn.mem, a)
    {
      PushedSpares(turn.mem, c, a);
    }
  }

  lemma SameFrame(m: Memory, m': Memory, sp: int, c: Context)
    requires FrameAt(m, sp, c)
    requires forall a :: sp <= a < sp + FRAME_SIZE ==> Load(m', a) == Load(m, a)
    ensures FrameAt(m', sp, c)
  {
  }

  lemma SameThread(m: Memory, m': Memory, sp: int, t: Thread)
    requires Intact(m, sp, t)
    requires forall a :: sp <= a < t.top ==> Load(m', a) == Load(m, a)
    ensures Intact(m', sp, t)
  {
    assert t.c.esp == sp + FRAME_SIZE;
    hide FrameAt;
    SameFrame(m, m', sp, t.c);
  }

  /** After the save, thread i is intact behind its cell: as recorded, or as it departs. */
  lemma ParkedAfterSave(w: World, turn: Turn, i: int)
    requires Sane(w) && Legal(w, turn)
    requires i == w.current || i in w.parked
    ensures var m, sp := After(w, turn).mem, Load(After(w, turn).mem, w.Cell(i));
            var t := if i == w.current then Departing(turn) else w.parked[i];
            Intact(m, sp, t) && (forall j :: 0 <= j < |w.cells| ==> !(sp <= w.cells[j] < t.top))
  {
    hide FrameAt, Pushed, Intact;
    var c, m := turn.caller, After(w, turn).mem;
    OwnThread(turn, w.Cell(w.current));
    if i != w.current {
      var sp := w.Sp(i);
      PushedSpares(turn.mem, c, w.Cell(i));
      forall a | w.Owns(i, a)
        ensures Load(m, a) == Load(w.mem, a)
      {
        PushedSpares(turn.mem, c, a);
      }
      SameThread(w.mem, m, sp, w.parked[i]);
    }
  }

  lemma SwitchKeepsSane(w: World, turn: Turn)
    requires Sane(w) && Legal(w, turn)
    ensures Sane(After(w, turn))
  {
    hide Intact, Pushed, Saved;
    var w' := After(w, turn);
    forall i | i in w'.parked
      ensures 0 <= i < |w.cells| && Intact(w'.mem, w'.Sp(i), w'.parked[i])
      ensures forall j :: 0 <= j < |w.cells| ==> !w'.Owns(i, w.cells[j])
    {
      ParkedAfterSave(w, turn, i);
    }
  }

  // ---------- Creation ----------

  /** In memory `m` a thread stands ready behind cell `id`, away from all others. */
  ghost predicate Built(w: World, m: Memory, id: int, t: Thread) {
    && Undisturbed(w, m)
    && Intact(m, Load(m, w.Cell(id)), t) && Unclaimed(w, Load(m, w.Cell(id)), t.top)
  }

  ghost predicate Joins(w: World, m: Memory, id: int, t: Thread) {
    0 <= id < |w.cells| && id != w.current && id !in w.parked && Built(w, m, id, t)
  }

  function WithThread(w: World, m: Memory, id: int, t: Thread): World {
    World(m, w.cells, w.current, w.parked[id := t])
  }

  lemma StaysIntact(w: World, m: Memory, i: int)
    requires Sane(w) && Undisturbed(w, m) && i in w.parked
    ensures Load(m, w.Cell(i)) == w.Sp(i) && Intact(m, w.Sp(i), w.parked[i])
  {
    hide Intact;
    SameThread(w.mem, m, w.Sp(i), w.parked[i]);
  }

  lemma JoinedThread(w: World, m: Memory, id: int, t: Thread, i: int)
    requires Sane(w) && Joins(w, m, id, t) && (i == id || i in w.parked)
    ensures var w' := WithThread(w, m, id, t);
            && 0 <= i < |w.cells| && Intact(m, w'.Sp(i), w'.parked[i])
            && (forall j :: 0 <= j < |w.cells| ==> !w'.Owns(i, w.cells[j]))
  {
    hide Intact;
    if i != id {
      StaysIntact(w, m, i);
      assert forall j :: 0 <= j < |w.cells| ==> !w.Owns(i, w.cells[j]);
    }
  }

  /** A thread may be added at any time: its frame and stack join the parked ones. */
  lemma CreateKeepsSane(w: World, m: Memory, id: int, t: Thread)
    requires Sane(w) && Joins(w, m, id, t)
    ensures Sane(WithThread(w, m, id, t))
  {
    hide Intact, Undisturbed, Unclaimed;
    var w' := WithThread(w, m, id, t);
    forall i | i in w'.parked
      ensures 0 <= i < |w.cells| && Intact(m, w'.Sp(i), w'.parked[i])
      ensures forall j :: 0 <= j < |w.cells| ==> !w'.Owns(i, w.cells[j])
    {
      JoinedThread(w, m, id, t, i);
    }
  }

  /** A killed thread is no longer looked after. */
  lemma ForgetKeepsSane(w: World, id: int)
    requires Sane(w)
    ensures Sane(w.(parked := w.parked - {id}))
  {
    hide Intact;
    var w' := w.(parked := w.parked - {id});
    assert forall i :: i in w'.parked ==> w'.Sp(i) == w.Sp(i) && w'.parked[i] == w.parked[i];
    assert forall i, a :: i in w'.parked ==> (w'.Owns(i, a) <==> w.Owns(i, a));
  }

  // ---------- The machine ----------

  /** The processor continues thread `t`: its registers, stack pointer and return address, EFLAGS as `Resumed`
      says, and every word of the stack it counts on. */
  ghost predicate Continues(cpu: Cpu, t: Thread, flags: bv32)
    reads cpu
  {
    && cpu.RunsAs(t.c) && FRAME_SIZE <= t.c.esp && cpu.Now() == Resumed(t.c, flags)
    && (forall a :: t.c.esp <= a < t.top ==> Load(cpu.mem, a) == Load(t.stack, a))
  }

  lemma AboveFrame(m: Memory, sp: int, c: Context)
    requires FrameAt(m, sp, c)
    ensures FRAME_SIZE <= c.esp
  {
  }

  /** One turn on the machine: `ctxswitch` parks the caller and continues the thread it names. */
  method TakeTurn(cpu: Cpu, ghost w: World, ghost turn: Turn)
    requires Sane(w) && Legal(w, turn)
    requires cpu.mem == turn.mem && cpu.CallsFrom(turn.caller)
    modifies cpu
    ensures cpu.mem == After(w, turn).mem
    ensures var t := if turn.next == w.current then Departing(turn) else w.parked[turn.next];
            Continues(cpu, t, turn.caller.flags)
  {
    hide Saved, Pushed, Resumed, FrameAt;
    ghost var t := if turn.next == w.current then Departing(turn) else w.parked[turn.next];
    ParkedAfterSave(w, turn, turn.next);
    AboveFrame(After(w, turn).mem, Load(After(w, turn).mem, w.Cell(turn.next)), t.c);
    hide Sane, Undisturbed, Unclaimed;
    cpu.CtxSwitch(turn.caller, t.c);
  }
}
