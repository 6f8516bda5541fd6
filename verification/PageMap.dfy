/** The linear map of the higher half that `init_higher_half_pagedirectory_info` writes, read back by the
    two-level walk of 32-bit paging (section 4.3 of the Intel SDM, volume 3A). */
module PageMap {
  import opened MachineWords
  import opened PageSearch
  import opened Paging

  const VIRTUAL_MEM_OFFSET: nat := 0xC000_0000
  const KERNEL_ENTRY: nat := 768
  /** 1024 - 768 - 8 page tables are allocated statically. */
  const DYNAMIC_TABLES: nat := 248
  /** Present and writable. */
  const FLAGS: nat := 3

  datatype Translation = Fault | Physical(addr: nat, flags: nat)

  function VirtualToPhysical(v: nat): nat {
    (v + WORD_LIMIT - VIRTUAL_MEM_OFFSET) % WORD_LIMIT
  }

  predicate Layout(pdt: seq<nat>, tables: seq<nat>, kernelTables: nat) {
    && |pdt| == NUM_OF_PDE && |tables| == DYNAMIC_TABLES * NUM_OF_PTE
    && kernelTables % PAGE_SIZE == 0
    && VIRTUAL_MEM_OFFSET <= kernelTables && kernelTables + DYNAMIC_TABLES * PAGE_SIZE <= WORD_LIMIT
  }

  /** The walk of the memory management unit: directory entry, table, table entry. Page tables other than
      the kernel's own `kernelTables` are not part of this memory. */
  function Walk(pdt: seq<nat>, tables: seq<nat>, kernelTables: nat, v: nat): Translation
    requires Layout(pdt, tables, kernelTables) && v < WORD_LIMIT
  {
    var pde := pdt[v / 0x40_0000];
    var base := pde - pde % PAGE_SIZE;
    var first := kernelTables - VIRTUAL_MEM_OFFSET;
    if pde % 2 == 0 || base < first || base >= first + DYNAMIC_TABLES * PAGE_SIZE then Fault
    else
      var pte := tables[(base - first) / PAGE_SIZE * NUM_OF_PTE + v / PAGE_SIZE % NUM_OF_PTE];
      if pte % 2 == 0 then Fault
      else Physical(pte - pte % PAGE_SIZE + v % PAGE_SIZE, pte % PAGE_SIZE)
  }

  /** What the loops must have written up to table `slot`. */
  ghost predicate Written(pdt: seq<nat>, tables: seq<nat>, kernelTables: nat, slots: nat)
    requires Layout(pdt, tables, kernelTables)
  {
    && slots <= DYNAMIC_TABLES
    && (forall i :: FIRST_TABLE <= i < FIRST_TABLE + slots ==>
          pdt[i] == kernelTables + (i - FIRST_TABLE) * PAGE_SIZE - VIRTUAL_MEM_OFFSET + FLAGS)
    && (forall k :: 0 <= k < slots * NUM_OF_PTE ==> tables[k] == EntryFor(k))
  }

  /** Entry `k` of the tables laid end to end maps the `k`-th page above the boot tables. */
  function EntryFor(k: nat): nat {
    VirtualAddr(FIRST_TABLE, 0) + k * PAGE_SIZE - VIRTUAL_MEM_OFFSET + FLAGS
  }

  lemma SplitAddress(v: nat)
    requires 0xC200_0000 <= v < WORD_LIMIT
    ensures FIRST_TABLE <= v / 0x40_0000 < NUM_OF_PDE
    ensures v == 0xC200_0000 + ((v / 0x40_0000 - FIRST_TABLE) * NUM_OF_PTE + v / PAGE_SIZE % NUM_OF_PTE) * PAGE_SIZE + v % PAGE_SIZE
  {
  }

  lemma AlignedEntry(e: nat, page: nat)
    requires e == page * PAGE_SIZE + FLAGS
    ensures e % PAGE_SIZE == FLAGS && e % 2 == 1 && e - e % PAGE_SIZE == page * PAGE_SIZE
  {
  }

  /** One walk: the directory entry leads to table `slot`, its entry `j` to page `page`. */
  lemma WalkTo(pdt: seq<nat>, tables: seq<nat>, kernelTables: nat, v: nat, slot: nat, j: nat, page: nat)
    requires Layout(pdt, tables, kernelTables) && v < WORD_LIMIT && slot < DYNAMIC_TABLES && j == v / PAGE_SIZE % NUM_OF_PTE
    requires v / 0x40_0000 < NUM_OF_PDE && pdt[v / 0x40_0000] == kernelTables - VIRTUAL_MEM_OFFSET + slot * PAGE_SIZE + FLAGS
    requires tables[slot * NUM_OF_PTE + j] == page * PAGE_SIZE + FLAGS
    ensures Walk(pdt, tables, kernelTables, v) == Physical(page * PAGE_SIZE + v % PAGE_SIZE, 3)
  {
    var first := kernelTables - VIRTUAL_MEM_OFFSET;
    var firstPage := first / PAGE_SIZE;
    assert first == firstPage * PAGE_SIZE;
    AlignedEntry(pdt[v / 0x40_0000], firstPage + slot);
    AlignedEntry(tables[slot * NUM_OF_PTE + j], page);
    assert slot * PAGE_SIZE / PAGE_SIZE == slot;
  }

  /** Every address from 0xC2000000 up translates to itself minus 0xC0000000, present and writable. */
  lemma HigherHalfIsLinear(pdt: seq<nat>, tables: seq<nat>, kernelTables: nat, v: nat)
    requires Layout(pdt, tables, kernelTables) && Written(pdt, tables, kernelTables, DYNAMIC_TABLES)
    requires 0xC200_0000 <= v < WORD_LIMIT
    ensures Walk(pdt, tables, kernelTables, v) == Physical(v - 0xC000_0000, 3)
  {
    hide Walk;
    SplitAddress(v);
    var s, j := v / 0x40_0000 - FIRST_TABLE, v / PAGE_SIZE % NUM_OF_PTE;
    assert tables[s * NUM_OF_PTE + j] == EntryFor(s * NUM_OF_PTE + j);
    WalkTo(pdt, tables, kernelTables, v, s, j, 0x2000 + s * NUM_OF_PTE + j);
  }

  /** An address whose directory entry is 0 is not mapped. */
  lemma LowerHalfFaults(pdt: seq<nat>, tables: seq<nat>, kernelTables: nat, v: nat)
    requires Layout(pdt, tables, kernelTables) && forall i :: 0 <= i < 768 ==> pdt[i] == 0
    requires v < 0xC000_0000
    ensures Walk(pdt, tables, kernelTables, v) == Fault
  {
    assert v / 0x40_0000 < 768;
  }

  /** The lower half is unmapped, the boot tables keep their entries, the rest is the linear map. */
  method InitHigherHalf(pdt: array<nat>, tables: array<nat>, kernelTables: nat)
    requires pdt != tables && Layout(pdt[..], tables[..], kernelTables)
    modifies pdt, tables
    ensures forall i :: 0 <= i < 768 ==> pdt[i] == 0
    ensures forall i :: 768 <= i < 776 ==> pdt[i] == old(pdt[i])
    ensures Written(pdt[..], tables[..], kernelTables, DYNAMIC_TABLES)
    ensures forall v :: 0 <= v < 0xC000_0000 ==> Walk(pdt[..], tables[..], kernelTables, v) == Fault
    ensures forall v :: 0xC200_0000 <= v < 0x1_0000_0000 ==>
              Walk(pdt[..], tables[..], kernelTables, v) == Physical(v - 0xC000_0000, 3)
  {
    for i := 0 to KERNEL_ENTRY
      invariant forall k :: 0 <= k < i ==> pdt[k] == 0
      invariant forall k :: i <= k < NUM_OF_PDE ==> pdt[k] == old(pdt[k])
    {
      pdt[i] := 0;
    }
    var vaddr, slot := VIRTUAL_MEM_OFFSET + 8 * PAGE_SIZE * 1024, 0;
    for i := FIRST_TABLE to NUM_OF_PDE
      invariant slot == i - FIRST_TABLE && vaddr == VirtualAddr(i, 0) % WORD_LIMIT
      invariant forall k :: 0 <= k < KERNEL_ENTRY ==> pdt[k] == 0
      invariant forall k :: KERNEL_ENTRY <= k < FIRST_TABLE ==> pdt[k] == old(pdt[k])
      invariant Written(pdt[..], tables[..], kernelTables, slot)
    {
      pdt[i] := VirtualToPhysical(kernelTables + slot * PAGE_SIZE) + FLAGS;
      vaddr := FillTable(tables, slot, vaddr);
      slot := slot + 1;
    }
    ghost var directory, entries := pdt[..], tables[..];
    forall v | 0 <= v < 0xC000_0000
      ensures Walk(directory, entries, kernelTables, v) == Fault
    {
      LowerHalfFaults(directory, entries, kernelTables, v);
    }
    forall v | 0xC200_0000 <= v < 0x1_0000_0000
      ensures Walk(directory, entries, kernelTables, v) == Physical(v - 0xC000_0000, 3)
    {
      HigherHalfIsLinear(directory, entries, kernelTables, v);
    }
  }

  /** The inner loop: the running address is always the one of the entry, and wraps only after the last. */
  method FillTable(tables: array<nat>, slot: nat, vaddr0: nat) returns (vaddr: nat)
    requires tables.Length == DYNAMIC_TABLES * NUM_OF_PTE && slot < DYNAMIC_TABLES
    requires vaddr0 == VirtualAddr(FIRST_TABLE + slot, 0)
    modifies tables
    ensures vaddr == VirtualAddr(FIRST_TABLE + slot + 1, 0) % WORD_LIMIT
    ensures forall k :: 0 <= k < slot * NUM_OF_PTE ==> tables[k] == old(tables[k])
    ensures forall k :: slot * NUM_OF_PTE <= k < (slot + 1) * NUM_OF_PTE ==> tables[k] == EntryFor(k)
  {
    vaddr := vaddr0;
    for j := 0 to NUM_OF_PTE
      invariant vaddr == VirtualAddr(FIRST_TABLE + slot, j) % WORD_LIMIT
      invariant forall k :: 0 <= k < slot * NUM_OF_PTE ==> tables[k] == old(tables[k])
      invariant forall k :: slot * NUM_OF_PTE <= k < slot * NUM_OF_PTE + j ==> tables[k] == EntryFor(k)
    {
      tables[slot * NUM_OF_PTE + j] := VirtualToPhysical(vaddr) + FLAGS;
      vaddr := (vaddr + PAGE_SIZE) % WORD_LIMIT;
    }
  }
}
