/** `ctxswitch` on a machine with the i386 general registers, EFLAGS and word memory. */
module ContextSwitch {
  import opened MachineWords

  /** Memory by word; addresses are multiples of four. */
  type Memory = map<int, Word>

  function Load(m: Memory, a: int): Word {
    if a in m then m[a] else 0
  }

  // ---------- EFLAGS ----------

  /** CF, PF, AF, ZF, SF and OF: written by ADD. */
  const STATUS_FLAGS: bv32 := 0x8D5
  /** What POPF writes at privilege level 0: the status flags, TF, IF, DF, IOPL, NT, AC and ID. */
  const POPF_FLAGS: bv32 := 0x24_7FD5
  const INTERRUPT_FLAG: bv32 := 0x200
  const CARRY_FLAG: bv32 := 0x001
  /** PUSHF stores EFLAGS with VM and RF cleared. */
  const PUSHF_MASK: bv32 := 0x00FC_FFFF
  const RESUME_FLAG: bv32 := 0x1_0000

  function PushedFlags(flags: bv32): bv32 { flags & PUSHF_MASK }

  function PoppedFlags(current: bv32, image: bv32): bv32 {
    (current & !POPF_FLAGS & !RESUME_FLAG) | (image & POPF_FLAGS)
  }

  function BitCount(b: nat): nat {
    if b == 0 then 0 else b % 2 + BitCount(b / 2)
  }

  /** The status flags after `add x, 4` (Intel SDM, volume 2, ADD). */
  function AddFourStatus(x: Word): bv32 {
    var r := (x + 4) % WORD_LIMIT;
    (if x + 4 >= WORD_LIMIT then 0x001 else 0)
    | (if BitCount(r % 256) % 2 == 0 then 0x004 else 0)
    | (if x % 16 + 4 >= 16 then 0x010 else 0)
    | (if r == 0 then 0x040 else 0)
    | (if r >= 0x8000_0000 then 0x080 else 0)
    | (if x < 0x8000_0000 && r >= 0x8000_0000 then 0x800 else 0)
  }

  /** EFLAGS when `ctxswitch` returns: POPF, then `add esp, 4` overwrites the status flags. */
  function ResumedFlags(current: bv32, image: bv32, sp: Word): bv32 {
    (PoppedFlags(current, image) & !STATUS_FLAGS) | AddFourStatus(sp)
  }

  /** What the addition makes of the six status flags, one by one. */
  lemma AddFourFlags(x: Word)
    ensures var f, r := AddFourStatus(x), (x + 4) % 0x1_0000_0000;
            && f & 0x8D5 == f
            && (f & 0x001 != 0 <==> x >= 0xFFFF_FFFC)
            && (f & 0x004 != 0 <==> BitCount(r % 256) % 2 == 0)
            && (f & 0x010 != 0 <==> x % 16 >= 12)
            && (f & 0x040 != 0 <==> x == 0xFFFF_FFFC)
            && (f & 0x080 != 0 <==> r >= 0x8000_0000)
            && (f & 0x800 != 0 <==> 0x7FFF_FFFC <= x < 0x8000_0000)
  {
  }

  /** Of the flags POPF can restore, all but the six status flags come back as they were saved: TF, IF, DF,
      IOPL, NT, AC and ID. */
  lemma ControlFlagsRestored(current: bv32, flags: bv32, sp: Word)
    ensures ResumedFlags(current, PushedFlags(flags), sp) & 0x24_7700 == flags & 0x24_7700
  {
  }

  /** The status flags come back exactly when they happen to be those of the final addition. */
  lemma StatusFlagsRestoredIff(current: bv32, flags: bv32, sp: Word)
    ensures var r := ResumedFlags(current, PushedFlags(flags), sp);
            r & 0x8D5 == AddFourStatus(sp)
            && (r & 0x24_7FD5 == flags & 0x24_7FD5 <==> flags & 0x8D5 == AddFourStatus(sp))
  {
  }

  /** A carry that was set when the thread left is clear when it continues. */
  lemma CarryIsLost(current: bv32, flags: bv32, sp: Word)
    requires sp + 4 < WORD_LIMIT && flags & CARRY_FLAG == CARRY_FLAG
    ensures ResumedFlags(current, PushedFlags(flags), sp) & CARRY_FLAG == 0
  {
  }

  // ---------- Contexts and frames ----------

  /** What a thread sees when a call of `ctxswitch` returns to it. */
  datatype Context = Context(eax: Word, ecx: Word, edx: Word, ebx: Word, esi: Word, edi: Word, ebp: Word,
                             esp: Word, eip: Word, flags: bv32)

  /** `pusha` (EDI lowest), `pushf`, `push ebp` and the return address: eleven words. */
  const FRAME_SIZE := 44

  ghost predicate FrameAt(m: Memory, sp: int, c: Context) {
    && 0 <= sp && sp % 4 == 0 && c.esp == sp + FRAME_SIZE
    && Load(m, sp) == c.edi && Load(m, sp + 4) == c.esi
    && Load(m, sp + 16) == c.ebx && Load(m, sp + 20) == c.edx && Load(m, sp + 24) == c.ecx && Load(m, sp + 28) == c.eax
    && Load(m, sp + 32) == PushedFlags(c.flags) as int
    && Load(m, sp + 36) == c.ebp && Load(m, sp + 40) == c.eip
  }

  /** The same thread, as it continues: everything is back except EFLAGS, which `ResumedFlags` gives. */
  function Resumed(c: Context, current: bv32): Context
    requires FRAME_SIZE <= c.esp
  {
    c.(flags := ResumedFlags(current, PushedFlags(c.flags), c.esp - 8))
  }

  /** Every register, the stack pointer, the return address and the control flags are back. */
  lemma ResumedIsSame(c: Context, current: bv32)
    requires FRAME_SIZE <= c.esp
    ensures var r := Resumed(c, current);
            && r.eax == c.eax && r.ecx == c.ecx && r.edx == c.edx && r.ebx == c.ebx
            && r.esi == c.esi && r.edi == c.edi && r.ebp == c.ebp && r.esp == c.esp && r.eip == c.eip
            && r.flags & 0x24_7700 == c.flags & 0x24_7700
  {
    ControlFlagsRestored(current, c.flags, c.esp - 8);
    hide ResumedFlags, PushedFlags;
  }

  /** Memory after the pushes of a call whose return address is at `c.esp - 4`. The words of ESP and of
      the inner EBP are stored but never used again. */
  function Pushed(m: Memory, c: Context): Memory
    requires FRAME_SIZE <= c.esp
  {
    var e := c.esp - 4;
    m[e - 4 := c.ebp][e - 8 := PushedFlags(c.flags) as int]
    [e - 12 := c.eax][e - 16 := c.ecx][e - 20 := c.edx][e - 24 := c.ebx]
    [e - 28 := e - 8][e - 32 := e - 4][e - 36 := c.esi][e - 40 := c.edi]
  }

  /** ... and after recording the stack pointer in `cell`. */
  function Saved(m: Memory, c: Context, cell: int): Memory
    requires FRAME_SIZE <= c.esp
  {
    Pushed(m, c)[cell := c.esp - FRAME_SIZE]
  }

  lemma PushedSpares(m: Memory, c: Context, a: int)
    requires FRAME_SIZE <= c.esp && !(c.esp - FRAME_SIZE <= a < c.esp - 4)
    ensures Load(Pushed(m, c), a) == Load(m, a)
  {
  }

  class Cpu {
    var eax: Word
    var ecx: Word
    var edx: Word
    var ebx: Word
    var esi: Word
    var edi: Word
    var ebp: Word
    var esp: Word
    var eip: Word
    var flags: bv32
    var mem: Memory

    ghost function Now(): Context
      reads this
    {
      Context(eax, ecx, edx, ebx, esi, edi, ebp, esp, eip, flags)
    }

    /** A thread with context `c` has just called: the return address is below its stack pointer. */
    ghost predicate CallsFrom(c: Context)
      reads this
    {
      && eax == c.eax && ecx == c.ecx && edx == c.edx && ebx == c.ebx && esi == c.esi && edi == c.edi
      && ebp == c.ebp && esp == c.esp - 4 && flags == c.flags
    }

    /** The processor is where the thread with context `c` left off, register by register. */
    ghost predicate RunsAs(c: Context)
      reads this
    {
      && eax == c.eax && ecx == c.ecx && edx == c.edx && ebx == c.ebx && esi == c.esi && edi == c.edi
      && ebp == c.ebp && esp == c.esp && eip == c.eip
      && flags & 0x24_7700 == c.flags & 0x24_7700
    }

    method Push(w: Word)
      requires 4 <= esp
      modifies `esp, `mem
      ensures esp == old(esp) - 4 && mem == old(mem)[esp := w]
    {
      esp := esp - 4;
      mem := mem[esp := w];
    }

    method Pop() returns (w: Word)
      requires esp + 4 < WORD_LIMIT
      modifies `esp
      ensures esp == old(esp) + 4 && w == Load(mem, old(esp))
    {
      w := Load(mem, esp);
      esp := esp + 4;
    }

    method PushA()
      requires 32 <= esp
      modifies `esp, `mem
      ensures var e := old(esp);
              && esp == e - 32
              && mem == old(mem)[e - 4 := eax][e - 8 := ecx][e - 12 := edx][e - 16 := ebx]
                                [e - 20 := e][e - 24 := ebp][e - 28 := esi][e - 32 := edi]
    {
      var temp := esp;
      Push(eax); Push(ecx); Push(edx); Push(ebx);
      Push(temp); Push(ebp); Push(esi); Push(edi);
    }

    method PopA()
      requires esp + 32 < WORD_LIMIT
      modifies `eax, `ecx, `edx, `ebx, `esi, `edi, `ebp, `esp
      ensures var e := old(esp);
              && esp == e + 32
              && edi == Load(mem, e) && esi == Load(mem, e + 4) && ebp == Load(mem, e + 8)
              && ebx == Load(mem, e + 16) && edx == Load(mem, e + 20) && ecx == Load(mem, e + 24) && eax == Load(mem, e + 28)
    {
      edi, esi, ebp := Load(mem, esp), Load(mem, esp + 4), Load(mem, esp + 8);
      ebx, edx, ecx, eax := Load(mem, esp + 16), Load(mem, esp + 20), Load(mem, esp + 24), Load(mem, esp + 28);
      esp := esp + 32;
    }

    method PushFrame(ghost caller: Context)
      requires FRAME_SIZE <= caller.esp
      requires CallsFrom(caller)
      modifies `esp, `ebp, `mem
      ensures mem == Pushed(old(mem), caller) && ebp == caller.esp - 8 && esp == caller.esp - FRAME_SIZE
    {
      hide PushedFlags;
      Push(ebp);
      ebp := esp;
      Push(PushedFlags(flags) as int);
      PushA();
    }

    /** Up to `mov [eax], esp`: push the frame and record where it is. */
    method Save(ghost caller: Context)
      requires FRAME_SIZE <= caller.esp && caller.esp + 8 < WORD_LIMIT
      requires CallsFrom(caller)
      modifies this
      ensures mem == Saved(old(mem), caller, old(Load(mem, esp + 4)))
      ensures flags == caller.flags && ebp == caller.esp - 8
    {
      hide Pushed;
      PushedSpares(mem, caller, esp + 4);
      PushFrame(caller);
      eax := Load(mem, ebp + 8);
      mem := mem[eax := esp];
    }

    /** `popf`, then the flags of `add esp, 4`. */
    method PopFlags()
      requires esp + 8 < WORD_LIMIT
      modifies `esp, `flags
      ensures esp == old(esp) + 8
      ensures flags == ResumedFlags(old(flags), Load(mem, old(esp)) as bv32, old(esp) + 4)
    {
      hide AddFourStatus, PoppedFlags;
      var image := Pop();
      flags := PoppedFlags(flags, image as bv32);
      flags := (flags & !STATUS_FLAGS) | AddFourStatus(esp);
      esp := esp + 4;
    }

    /** The instructions from `popa` to `ret`. */
    method PopFrame(ghost target: Context)
      requires FrameAt(mem, esp, target)
      modifies this
      ensures mem == old(mem) && Now() == Resumed(target, old(flags))
    {
      hide ResumedFlags, PushedFlags;
      PopA();
      ebp := Load(mem, esp + 4);
      PopFlags();
      eip := Pop();
    }

    /** They unwind the frame at ESP and return into its thread. */
    method Restore(ghost target: Context)
      requires FrameAt(mem, esp, target)
      modifies this
      ensures mem == old(mem) && RunsAs(target) && Now() == Resumed(target, old(flags))
    {
      hide Resumed, RunsAs;
      PopFrame(target);
      SameRegisters(target, old(flags));
    }

    lemma SameRegisters(c: Context, current: bv32)
      requires FRAME_SIZE <= c.esp && Now() == Resumed(c, current)
      ensures RunsAs(c)
    {
      hide Resumed;
      ResumedIsSame(c, current);
    }

    /** The whole of `ctxswitch`, entered with the return address at ESP and the two cell addresses above it. */
    method CtxSwitch(ghost caller: Context, ghost target: Context)
      requires FRAME_SIZE <= caller.esp && caller.esp + 8 < WORD_LIMIT
      requires CallsFrom(caller)
      requires Load(mem, esp) == caller.eip
      requires var cell, cell' := Load(mem, esp + 4), Load(mem, esp + 8);
               && !(esp - 40 <= cell < esp + 12)
               && FrameAt(Saved(mem, caller, cell), Load(Saved(mem, caller, cell), cell'), target)
      modifies this
      ensures mem == Saved(old(mem), caller, old(Load(mem, esp + 4)))
      ensures RunsAs(target) && Now() == Resumed(target, caller.flags)
    {
      hide FrameAt, Resumed, Pushed, RunsAs;
      PushedSpares(mem, caller, esp + 8);
      Save(caller);
      eax := Load(mem, ebp + 12);
      esp := Load(mem, eax);
      Restore(target);
    }
  }
}
