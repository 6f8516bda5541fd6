/** The page allocator of the higher half: the search over page tables, marking and unmarking. */
module Paging {
  import opened MachineWords
  import opened PageSearch

  const PAGE_SIZE: nat := 4096

  // ---------- Addresses ----------

  function VirtualAddr(pde: nat, pte: nat): nat {
    PAGE_SIZE * NUM_OF_PTE * pde + PAGE_SIZE * pte
  }

  function CalcPdOffset(start: nat): nat {
    start / (NUM_OF_PTE * PAGE_SIZE) % 0x1_0000
  }

  /** The cast to 16 bits binds tighter than the division. */
  function CalcPtOffset(start: nat): nat {
    start % (NUM_OF_PTE * PAGE_SIZE) % 0x1_0000 / PAGE_SIZE
  }

  /** The directory index comes back; of the slot only the last four bits do. */
  lemma OffsetsOfVirtualAddr(pde: nat, pte: nat)
    requires pde < 1024 && pte < 1024
    ensures VirtualAddr(pde, pte) == 0x40_0000 * pde + 0x1000 * pte < WORD_LIMIT
    ensures CalcPdOffset(VirtualAddr(pde, pte)) == pde
    ensures CalcPtOffset(VirtualAddr(pde, pte)) == pte % 16
  {
  }

  // ---------- Marking ----------

  function Fill(t: seq<bool>, s: nat, n: nat, value: bool): (r: seq<bool>)
    requires s + n <= |t|
    ensures |r| == |t|
    ensures forall k :: 0 <= k < |t| ==> r[k] == if s <= k < s + n then value else t[k]
  {
    t[..s] + seq(n, _ => value) + t[s + n..]
  }

  /** How many of the pages `[s, s+n)` lie in table `pde`. */
  function Overlap(s: nat, n: nat, pde: nat): nat {
    if n == 0 then 0 else Overlap(s, n - 1, pde) + (if (s + n - 1) / NUM_OF_PTE == pde then 1 else 0)
  }

  /** The counters after adding `delta` for every page of `[s, s+n)`. */
  function Bump(f: seq<int>, s: nat, n: nat, delta: int): (r: seq<int>)
    ensures |r| == |f|
  {
    seq(|f|, pde requires 0 <= pde < |f| => f[pde] + delta * Overlap(s, n, pde))
  }

  lemma FillStep(t: seq<bool>, s: nat, i: nat, value: bool)
    requires s + i < |t|
    ensures Fill(t, s, i, value)[s + i := value] == Fill(t, s, i + 1, value)
  {
  }

  lemma BumpStep(f: seq<int>, s: nat, i: nat, delta: int)
    requires |f| == NUM_OF_PDE && s + i < TOTAL
    ensures var pde, b := (s + i) / NUM_OF_PTE, Bump(f, s, i, delta);
            b[pde := b[pde] + delta] == Bump(f, s, i + 1, delta)
  {
  }

  lemma NotYetMarked(t: seq<bool>, s: nat, i: nat)
    requires s + i < |t|
    ensures Fill(t, s, i, true)[s + i] == t[s + i]
  {
  }

  lemma NothingMarked(t: seq<bool>, f: seq<int>, s: nat, value: bool, delta: int)
    requires s <= |t|
    ensures Fill(t, s, 0, value) == t && Bump(f, s, 0, delta) == f
  {
  }

  lemma {:induction false} AllUntaken(t: seq<bool>, lo: nat, hi: nat)
    requires lo <= hi <= |t| && forall k :: lo <= k < hi ==> !t[k]
    ensures Untaken(t, lo, hi) == hi - lo
    decreases hi
  {
    if lo < hi {
      AllUntaken(t, lo, hi - 1);
    }
  }

  lemma {:induction false} UntakenUpdate(t: seq<bool>, lo: nat, hi: nat, x: nat)
    requires lo <= hi <= |t| && x < |t| && !t[x]
    ensures Untaken(t[x := true], lo, hi) == Untaken(t, lo, hi) - (if lo <= x < hi then 1 else 0)
    decreases hi
  {
    if lo < hi {
      UntakenUpdate(t, lo, hi - 1, x);
    }
  }

  lemma MarkKeepsCounts(t: seq<bool>, f: seq<int>, x: nat)
    requires CountsAgree(t, f) && x < TOTAL && !t[x]
    ensures CountsAgree(t[x := true], f[x / NUM_OF_PTE := f[x / NUM_OF_PTE] - 1])
  {
    forall pde | FIRST_TABLE <= pde < NUM_OF_PDE
      ensures TableUntaken(t[x := true], pde) == TableUntaken(t, pde) - (if pde == x / NUM_OF_PTE then 1 else 0)
    {
      UntakenUpdate(t, pde * NUM_OF_PTE, pde * NUM_OF_PTE + NUM_OF_PTE, x);
    }
  }

  lemma FillUndo(t: seq<bool>, s: nat, n: nat)
    requires s + n <= |t| && forall k :: s <= k < s + n ==> !t[k]
    ensures Fill(Fill(t, s, n, true), s, n, false) == t
  {
  }

  lemma BumpUndo(f: seq<int>, s: nat, n: nat)
    ensures Bump(Bump(f, s, n, -1), s, n, 1) == f
  {
  }

  lemma FillMisses(t: seq<bool>, s: nat, s': nat, n: nat)
    requires s + n <= |t| && s' < s && 0 < n && !t[s + n - 1]
    ensures Fill(Fill(t, s, n, true), s', n, false) != t
  {
  }

  /** `free_pages` undoes an allocation, pages and counters, exactly when its first slot is below 16. */
  lemma FreeUndoesAllocIff(t: seq<bool>, f: seq<int>, pde: nat, pte: nat, n: nat)
    requires |t| == TOTAL && |f| == NUM_OF_PDE && pde < NUM_OF_PDE && pte < NUM_OF_PTE && 0 < n
    requires RealRun(t, pde * NUM_OF_PTE + pte, n)
    ensures var s, v := pde * NUM_OF_PTE + pte, VirtualAddr(pde, pte);
            var s' := CalcPdOffset(v) * NUM_OF_PTE + CalcPtOffset(v);
            && s' + n <= TOTAL
            && (Fill(Fill(t, s, n, true), s', n, false) == t && Bump(Bump(f, s, n, -1), s', n, 1) == f <==> pte < 16)
  {
    hide Fill, Bump, VirtualAddr, CalcPdOffset, CalcPtOffset;
    OffsetsOfVirtualAddr(pde, pte);
    var s := pde * NUM_OF_PTE + pte;
    if pte < 16 {
      FillUndo(t, s, n);
      BumpUndo(f, s, n);
    } else {
      FillMisses(t, s, pde * NUM_OF_PTE + pte % 16, n);
    }
  }

  // ---------- The scan ----------

  /** `n` pages of the live tables have been looked at; the last `run` of them are free and in hand, and
      no run of `count` pages starts before those. */
  ghost predicate Scanned(t: seq<bool>, live: seq<nat>, count: nat, n: nat, run: nat) {
    && InDirectory(t, live)
    && run <= count && run <= n <= |live| * NUM_OF_PTE
    && (forall k :: n - run <= k < n ==> !t[Page(live, k)])
    && (forall p :: 0 <= p < n - run ==> !FreeRun(t, live, p, count))
  }

  lemma ScanPage(t: seq<bool>, live: seq<nat>, count: nat, n: nat, run: nat)
    requires Scanned(t, live, count, n, run) && run < count && n < |live| * NUM_OF_PTE
    ensures Scanned(t, live, count, n + 1, if t[Page(live, n)] then 0 else run + 1)
  {
  }

  lemma ScanStart(t: seq<bool>, live: seq<nat>, count: nat)
    requires InDirectory(t, live)
    ensures Scanned(t, live, count, 0, 0)
  {
  }

  lemma ScanFound(t: seq<bool>, live: seq<nat>, count: nat, n: nat)
    requires Scanned(t, live, count, n, count)
    ensures FirstRun(t, live, n - count, count)
  {
  }

  lemma ScanComplete(t: seq<bool>, live: seq<nat>, count: nat, run: nat, q: nat)
    requires Scanned(t, live, count, |live| * NUM_OF_PTE, run) && run < count
    ensures !FreeRun(t, live, q, count)
  {
  }

  /** A crossing in progress: where the run in hand started, as the code remembers it. */
  predicate Remembers(n: nat, run: nat, table: nat, crosses: nat, pteStart: nat)
    requires run <= n
  {
    pteStart == (n - run) % NUM_OF_PTE && crosses + (n - run) / NUM_OF_PTE == table
  }

  /** The first `m` live tables lie before table `pde`, the others do not. */
  ghost predicate Cut(live: seq<nat>, m: nat, pde: nat) {
    && m <= |live|
    && (forall j :: 0 <= j < m ==> live[j] < pde)
    && (forall j :: m <= j < |live| ==> pde <= live[j])
  }

  lemma CutStart(f: seq<int>, live: seq<nat>)
    requires LiveList(f, live)
    ensures Cut(live, 0, FIRST_TABLE)
  {
  }

  lemma CutStep(f: seq<int>, live: seq<nat>, m: nat, pde: nat)
    requires LiveList(f, live) && Cut(live, m, pde) && FIRST_TABLE <= pde < NUM_OF_PDE
    ensures if f[pde] != 0 then m < |live| && live[m] == pde && Cut(live, m + 1, pde + 1) else Cut(live, m, pde + 1)
  {
  }

  lemma CutEnd(f: seq<int>, live: seq<nat>, m: nat)
    requires LiveList(f, live) && Cut(live, m, NUM_OF_PDE)
    ensures m == |live|
  {
    if m < |live| {
      InTable(f, live, m);
      assert false;
    }
  }

  lemma InTable(f: seq<int>, live: seq<nat>, j: nat)
    requires LiveList(f, live) && j < |live|
    ensures FIRST_TABLE <= live[j] < NUM_OF_PDE
  {
  }

  /** The start that is computed from the last table, the crossings and the remembered slot. */
  lemma StartFound(f: seq<int>, live: seq<nat>, q: nat, n: nat, m: nat, i: nat, crosses: nat, pteStart: nat)
    requires LiveList(f, live) && m < |live| && 0 < i <= NUM_OF_PTE && 0 < n
    requires q + n == m * NUM_OF_PTE + i && Remembers(q + n, n, m, crosses, pteStart)
    ensures q + n <= |live| * NUM_OF_PTE && crosses <= live[m] && pteStart < NUM_OF_PTE
    ensures (live[m] - crosses) * NUM_OF_PTE + pteStart == ComputedStart(live, q, n)
  {
    LiveGaps(live, 0, m);
    assert (q + n - 1) / NUM_OF_PTE == m;
  }

  ghost predicate LowestRun(t: seq<bool>, s: nat, n: nat) {
    RealRun(t, s, n) && forall p :: 0 <= p < s ==> !RealRun(t, p, n)
  }

  /** Some run of free pages exists once the fully taken tables are left out. */
  ghost predicate HasRun(t: seq<bool>, f: seq<int>, n: nat)
    requires |t| == TOTAL && |f| == NUM_OF_PDE
  {
    exists q :: FreeRun(t, LiveTables(f), q, n)
  }

  /** The first such run reaches across no fully taken table. */
  ghost predicate AllocSucceeds(t: seq<bool>, f: seq<int>, n: nat)
    requires |t| == TOTAL && |f| == NUM_OF_PDE && 0 < n
  {
    exists q :: FirstRun(t, LiveTables(f), q, n) && Contiguous(LiveTables(f), q, n)
  }

  lemma StartInDirectory(t: seq<bool>, f: seq<int>, live: seq<nat>, q: nat, n: nat)
    requires CountsAgree(t, f) && LiveList(f, live) && 0 < n && q + n <= |live| * NUM_OF_PTE
    ensures 0 <= ComputedStart(live, q, n) && ComputedStart(live, q, n) + n <= TOTAL
  {
    LiveGaps(live, q / NUM_OF_PTE, (q + n - 1) / NUM_OF_PTE);
  }

  /** The marking loop gets through exactly when the first run bridges no skipped table. */
  lemma AllocOutcome(t: seq<bool>, f: seq<int>, q: nat, n: nat)
    requires CountsAgree(t, f) && 0 < n && FirstRun(t, LiveTables(f), q, n)
    ensures var s := ComputedStart(LiveTables(f), q, n);
            && 0 <= s && s + n <= TOTAL
            && (AllocSucceeds(t, f, n) <==> !exists k :: s <= k < s + n && t[k])
            && (AllocSucceeds(t, f, n) ==> LowestRun(t, s, n))
  {
    var live := LiveTables(f);
    StartInDirectory(t, f, live, q, n);
    forall q': nat | FirstRun(t, live, q', n)
      ensures q' == q
    {
    }
    if Contiguous(live, q, n) {
      FirstRunIsLowest(t, f, live, q, n);
    } else {
      var k := BridgedHitsTaken(t, f, live, q, n);
      var s := ComputedStart(live, q, n);
      assert s <= s + k < s + n && t[s + k];
    }
  }

  /** A run of neighbouring free pages, with no fully taken table right after a free last page before it,
      makes `alloc_pages` succeed. */
  lemma UnbridgedAllocSucceeds(t: seq<bool>, f: seq<int>, n: nat, p: nat)
    requires CountsAgree(t, f) && 0 < n && RealRun(t, p, n) && Unbridged(t, p)
    ensures HasRun(t, f, n) && AllocSucceeds(t, f, n)
  {
    var live := LiveTables(f);
    var known := RealRunIsLive(t, f, live, p, n);
    var q := LeastRun(t, live, n, known);
    UnbridgedIsContiguous(t, f, live, q, n, p);
  }

  lemma {:induction false} LeastRun(t: seq<bool>, live: seq<nat>, n: nat, known: nat) returns (q: nat)
    requires InDirectory(t, live) && FreeRun(t, live, known, n)
    ensures FirstRun(t, live, q, n)
    decreases known
  {
    if p :| 0 <= p < known && FreeRun(t, live, p, n) {
      q := LeastRun(t, live, n, p);
    } else {
      q := known;
    }
  }

  /** Of the dynamic tables the first two are taken but for the last page of the first. */
  function BridgedPages(): seq<bool> {
    seq(TOTAL, k => FIRST_TABLE * NUM_OF_PTE <= k < (FIRST_TABLE + 2) * NUM_OF_PTE && k != FIRST_TABLE * NUM_OF_PTE + 1023)
  }

  /** Two pages are wanted: there are plenty, but the search bridges the full second table and hangs. */
  lemma BridgeHangs(t: seq<bool>, f: seq<int>)
    requires t == BridgedPages() && CountsAgree(t, f)
    ensures RealRun(t, (FIRST_TABLE + 2) * NUM_OF_PTE, 2) && HasRun(t, f, 2) && !AllocSucceeds(t, f, 2)
  {
    var live := LiveTables(f);
    assert TableUntaken(t, FIRST_TABLE + 1) == 0;
    TableOfFreePage(t, f, live, FIRST_TABLE * NUM_OF_PTE + 1023);
    TableOfFreePage(t, f, live, (FIRST_TABLE + 2) * NUM_OF_PTE);
    FirstTwoLive(f, live);
    assert Page(live, 1023) == FIRST_TABLE * NUM_OF_PTE + 1023 && Page(live, 1024) == (FIRST_TABLE + 2) * NUM_OF_PTE;
    assert FreeRun(t, live, 1023, 2);
    forall p | 0 <= p < 1023
      ensures !FreeRun(t, live, p, 2)
    {
      assert t[Page(live, p)];
    }
    AllocOutcome(t, f, 1023, 2);
    assert t[ComputedStart(live, 1023, 2)];
  }

  lemma FirstTwoLive(f: seq<int>, live: seq<nat>)
    requires LiveList(f, live) && FIRST_TABLE in live && FIRST_TABLE + 2 in live && FIRST_TABLE + 1 !in live
    ensures 2 <= |live| && live[0] == FIRST_TABLE && live[1] == FIRST_TABLE + 2
  {
  }

  /** Without a run of `n` free pages that the search can see, no start it may come up with lets the marking loop
      get through: a page is taken or the directory ends first. */
  lemma NoRunNoMarking(t: seq<bool>, f: seq<int>, s: nat, n: nat)
    requires CountsAgree(t, f) && 0 < n && !HasRun(t, f, n) && FIRST_TABLE * NUM_OF_PTE <= s
    ensures TOTAL < s + n || exists k :: s <= k < s + n && t[k]
  {
    if RealRun(t, s, n) {
      var q := RealRunIsLive(t, f, LiveTables(f), s, n);
      assert false;
    }
  }

  datatype Allocation = Mapped(vaddr: nat) | Stuck

  datatype Marking = Marked | MetTaken | OffTheEnd

  class PageDirectory {
    const taken: array<bool>
    const freePages: array<int>

    ghost predicate Valid()
      reads this, taken, freePages
    {
      taken.Length == TOTAL && freePages.Length == NUM_OF_PDE && CountsAgree(taken[..], freePages[..])
    }

    /** After `init_higher_half_pagedirectory_info`: every page of the dynamic tables is free, the boot
        tables count as full. */
    constructor ()
      ensures Valid() && fresh(taken) && fresh(freePages)
      ensures forall k :: 0 <= k < TOTAL ==> !taken[k]
      ensures forall pde :: 0 <= pde < NUM_OF_PDE ==> freePages[pde] == if pde < FIRST_TABLE then 0 else NUM_OF_PTE
    {
      taken := new bool[TOTAL](_ => false);
      freePages := new int[NUM_OF_PDE](pde => if pde < FIRST_TABLE then 0 else NUM_OF_PTE);
      new;
      forall pde | FIRST_TABLE <= pde < NUM_OF_PDE
        ensures TableUntaken(taken[..], pde) == NUM_OF_PTE
      {
        AllUntaken(taken[..], pde * NUM_OF_PTE, pde * NUM_OF_PTE + NUM_OF_PTE);
      }
    }

    /** The inner `for`: collect free pages of one table until enough, a taken page, or the table's end. */
    method CollectRun(pde: nat, count: nat, from: nat, collected: nat, crosses: nat, pteStart: nat,
                      ghost live: seq<nat>, ghost m: nat)
      returns (i: nat, run: nat, keepGoing: bool, crosses': nat)
      requires taken.Length == TOTAL && InDirectory(taken[..], live)
      requires m < |live| && live[m] == pde && from < NUM_OF_PTE && collected < count && collected <= m * NUM_OF_PTE + from
      requires Scanned(taken[..], live, count, m * NUM_OF_PTE + from, collected)
      requires Remembers(m * NUM_OF_PTE + from, collected, m, crosses, pteStart)
      requires crosses == 0 ==> collected == 0
      ensures from < i <= NUM_OF_PTE && run <= count && run <= m * NUM_OF_PTE + i
      ensures Scanned(taken[..], live, count, m * NUM_OF_PTE + i, run)
      ensures keepGoing ==> crosses' == crosses && 0 < run && (run == count || i == NUM_OF_PTE)
                            && Remembers(m * NUM_OF_PTE + i, run, m, crosses, pteStart)
      ensures !keepGoing ==> run == 0 && crosses' == 0
    {
      hide Scanned;
      var c: nat, sofar: nat := 0, collected;
      i, keepGoing, crosses' := from, true, crosses;
      while i < NUM_OF_PTE && sofar + c < count && keepGoing
        invariant from <= i <= NUM_OF_PTE && (i == from ==> keepGoing && c == 0)
        invariant Scanned(taken[..], live, count, m * NUM_OF_PTE + i, if keepGoing then sofar + c else 0)
        invariant keepGoing ==> sofar == collected && crosses' == crosses && c == i - from && sofar + c <= count
        invariant !keepGoing ==> crosses' == 0
      {
        ScanPage(taken[..], live, count, m * NUM_OF_PTE + i, sofar + c);
        assert Page(live, m * NUM_OF_PTE + i) == pde * NUM_OF_PTE + i;
        if !taken[pde * NUM_OF_PTE + i] {
          c := c + 1;
        } else {
          keepGoing := false;
          if crosses' > 0 {
            sofar, c, crosses' := 0, 0, 0;
          }
        }
        i := i + 1;
      }
      run := if keepGoing then sofar + c else 0;
    }

    /** One page table of the search. A run that reaches the table's end is carried over. */
    method SearchTable(pde: nat, count: nat, collected0: nat, crosses0: nat, pteStart0: nat,
                       ghost live: seq<nat>, ghost m: nat)
      returns (collected: nat, crosses: nat, pteStart: nat, keepGoing: bool, ghost i: nat)
      requires taken.Length == TOTAL && InDirectory(taken[..], live)
      requires m < |live| && live[m] == pde && collected0 < count && collected0 <= m * NUM_OF_PTE
      requires Scanned(taken[..], live, count, m * NUM_OF_PTE, collected0)
      requires if crosses0 == 0 then collected0 == 0 else Remembers(m * NUM_OF_PTE, collected0, m, crosses0, pteStart0)
      ensures collected <= count && collected <= m * NUM_OF_PTE + i
      ensures 0 < i <= NUM_OF_PTE && (collected < count ==> i == NUM_OF_PTE)
      ensures Scanned(taken[..], live, count, m * NUM_OF_PTE + i, collected)
      ensures if keepGoing then 0 < collected && Remembers(m * NUM_OF_PTE + i, collected, m, crosses, pteStart)
              else collected == crosses == 0
    {
      hide Scanned, Page;
      collected, crosses, pteStart := collected0, crosses0, pteStart0;
      var at := 0;
      keepGoing := false;
      while at < NUM_OF_PTE
        invariant 0 <= at <= NUM_OF_PTE && collected < count && collected <= m * NUM_OF_PTE + at
        invariant Scanned(taken[..], live, count, m * NUM_OF_PTE + at, collected)
        invariant at < NUM_OF_PTE && crosses == 0 ==> collected == 0
        invariant at < NUM_OF_PTE && crosses > 0 ==> Remembers(m * NUM_OF_PTE + at, collected, m, crosses, pteStart)
        invariant at == NUM_OF_PTE ==>
                    if keepGoing then 0 < collected && Remembers(m * NUM_OF_PTE + at, collected, m, crosses, pteStart)
                    else collected == crosses == 0
      {
        if crosses == 0 {
          pteStart := at;
        }
        at, collected, keepGoing, crosses := CollectRun(pde, count, at, collected, crosses, pteStart, live, m);
        if keepGoing && collected == count {
          i := at;
          return;
        }
      }
      i := at;
    }

    /** The search: the first run over the live tables, its slot, and the last table minus the crossings. */
    method Search(count: nat, ghost live: seq<nat>, ghost known: nat)
      returns (pdeStart: nat, pteStart: nat, ghost q: nat)
      requires Valid() && 0 < count && LiveList(freePages[..], live) && InDirectory(taken[..], live)
      requires FreeRun(taken[..], live, known, count)
      ensures FirstRun(taken[..], live, q, count)
      ensures pteStart < NUM_OF_PTE && pdeStart * NUM_OF_PTE + pteStart == ComputedStart(live, q, count)
    {
      hide Page, CountsAgree, Scanned, FreeRun, LiveList, Cut, ComputedStart, FirstRun;
      ghost var t, f := taken[..], freePages[..];
      ScanStart(t, live, count);
      CutStart(f, live);
      var crosses: nat, collected: nat, pde: nat := 0, 0, FIRST_TABLE;
      ghost var m := 0;
      pteStart := 0;
      while pde < NUM_OF_PDE
        invariant FIRST_TABLE <= pde <= NUM_OF_PDE && collected < count
        invariant 0 <= m <= |live| && collected <= m * NUM_OF_PTE && Cut(live, m, pde)
        invariant Scanned(t, live, count, m * NUM_OF_PTE, collected)
        invariant if crosses == 0 then collected == 0 else Remembers(m * NUM_OF_PTE, collected, m, crosses, pteStart)
      {
        CutStep(f, live, m, pde);
        if freePages[pde] != 0 {
          var keepGoing;
          ghost var i;
          collected, crosses, pteStart, keepGoing, i := SearchTable(pde, count, collected, crosses, pteStart, live, m);
          if collected == count {
            q := m * NUM_OF_PTE + i - count;
            ScanFound(t, live, count, m * NUM_OF_PTE + i);
            StartFound(f, live, q, count, m, i, crosses, pteStart);
            pdeStart := pde - crosses;
            return;
          }
          if keepGoing {
            crosses := crosses + 1;
          }
          m := m + 1;
        }
        pde := pde + 1;
      }
      CutEnd(f, live, m);
      ScanComplete(t, live, count, collected, known);
      assert false;
    }

    /** Marks `count` pages as taken; hangs when it meets one that already is, and leaves the directory when
        its pages run out. */
    method Mark(pdeStart: nat, pteStart: nat, count: nat) returns (r: Marking)
      requires Valid() && pdeStart < NUM_OF_PDE && pteStart < NUM_OF_PTE
      modifies taken, freePages
      ensures Valid()
      ensures var s := pdeStart * NUM_OF_PTE + pteStart;
              && (r == MetTaken <==> exists k :: s <= k < s + count && k < TOTAL && old(taken[..])[k])
              && (r == Marked ==> s + count <= TOTAL
                                  && taken[..] == Fill(old(taken[..]), s, count, true)
                                  && freePages[..] == Bump(old(freePages[..]), s, count, -1))
              && (r == OffTheEnd ==> TOTAL < s + count)
    {
      hide Fill, Bump, CountsAgree;
      var i, pde, pte := 0, pdeStart, pteStart;
      ghost var s, t, f := pdeStart * NUM_OF_PTE + pteStart, taken[..], freePages[..];
      NothingMarked(t, f, s, true, -1);
      while i < count
        invariant 0 <= i <= count && 0 <= pte < NUM_OF_PTE && pde * NUM_OF_PTE + pte == s + i <= TOTAL
        invariant Valid()
        invariant forall k :: s <= k < s + i ==> !t[k]
        invariant taken[..] == Fill(t, s, i, true) && freePages[..] == Bump(f, s, i, -1)
      {
        if pde == NUM_OF_PDE {
          return OffTheEnd;
        }
        NotYetMarked(t, s, i);
        if taken[pde * NUM_OF_PTE + pte] {
          assert t[s + i];
          return MetTaken;
        }
        MarkPage(pde, pte, s, i, t, f);
        pte := pte + 1;
        if pte == NUM_OF_PTE {
          pte, pde := 0, pde + 1;
        }
        i := i + 1;
      }
      return Marked;
    }

    method MarkPage(pde: nat, pte: nat, ghost s: nat, ghost i: nat, ghost t: seq<bool>, ghost f: seq<int>)
      requires Valid() && pde < NUM_OF_PDE && pte < NUM_OF_PTE && pde * NUM_OF_PTE + pte == s + i
      requires |t| == TOTAL && |f| == NUM_OF_PDE
      requires !taken[pde * NUM_OF_PTE + pte] && taken[..] == Fill(t, s, i, true) && freePages[..] == Bump(f, s, i, -1)
      modifies taken, freePages
      ensures Valid() && taken[..] == Fill(t, s, i + 1, true) && freePages[..] == Bump(f, s, i + 1, -1)
    {
      hide Fill, Bump, CountsAgree;
      MarkKeepsCounts(taken[..], freePages[..], s + i);
      FillStep(t, s, i, true);
      BumpStep(f, s, i, -1);
      taken[pde * NUM_OF_PTE + pte] := true;
      freePages[pde] := freePages[pde] - 1;
    }

    /** First fit over the live tables. The pages handed out are the lowest free run exactly when that run
        does not reach across a skipped, fully taken table; otherwise the marking loop hangs. */
    method AllocPages(count: nat) returns (r: Allocation)
      requires Valid() && 0 < count
      requires HasRun(taken[..], freePages[..], count)
      modifies taken, freePages
      ensures Valid()
      ensures r.Mapped? <==> AllocSucceeds(old(taken[..]), old(freePages[..]), count)
      ensures r.Mapped? ==>
                exists pde: nat, pte: nat ::
                  && pde < NUM_OF_PDE && pte < NUM_OF_PTE && r.vaddr == VirtualAddr(pde, pte)
                  && LowestRun(old(taken[..]), pde * NUM_OF_PTE + pte, count)
                  && taken[..] == Fill(old(taken[..]), pde * NUM_OF_PTE + pte, count, true)
                  && freePages[..] == Bump(old(freePages[..]), pde * NUM_OF_PTE + pte, count, -1)
    {
      hide Fill, Bump, FirstRun, FreeRun, Contiguous, ComputedStart, CountsAgree, RealRun;
      ghost var t, f := taken[..], freePages[..];
      ghost var live := LiveTables(f);
      ghost var known :| FreeRun(t, live, known, count);
      var pde, pte;
      ghost var q;
      pde, pte, q := Search(count, live, known);
      AllocOutcome(t, f, q, count);
      var marking := Mark(pde, pte, count);
      if marking != Marked {
        return Stuck;
      }
      return Mapped(VirtualAddr(pde, pte));
    }

    method FreePages(start: nat, count: nat)
      requires taken.Length == TOTAL && freePages.Length == NUM_OF_PDE
      requires CalcPdOffset(start) * NUM_OF_PTE + CalcPtOffset(start) + count <= TOTAL
      modifies taken, freePages
      ensures var s := CalcPdOffset(start) * NUM_OF_PTE + CalcPtOffset(start);
              taken[..] == Fill(old(taken[..]), s, count, false) && freePages[..] == Bump(old(freePages[..]), s, count, 1)
    {
      hide Fill, Bump;
      var pd, pt := CalcPdOffset(start), CalcPtOffset(start);
      ghost var s, t, f := pd * NUM_OF_PTE + pt, taken[..], freePages[..];
      NothingMarked(t, f, s, false, 1);
      for i := 0 to count
        invariant 0 <= pt < NUM_OF_PTE && pd * NUM_OF_PTE + pt == s + i
        invariant taken[..] == Fill(t, s, i, false) && freePages[..] == Bump(f, s, i, 1)
      {
        FillStep(t, s, i, false);
        BumpStep(f, s, i, 1);
        taken[pd * NUM_OF_PTE + pt] := false;
        freePages[pd] := freePages[pd] + 1;
        pt := pt + 1;
        if pt == NUM_OF_PTE {
          pt, pd := 0, pd + 1;
        }
      }
    }
  }
}
