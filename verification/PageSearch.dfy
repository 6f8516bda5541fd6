/** First fit over pages, as values: what the search of `alloc_pages` looks for and what it may return. */
module PageSearch {

  const NUM_OF_PTE: nat := 1024
  const NUM_OF_PDE: nat := 1024
  const TOTAL: nat := 0x10_0000
  /** The first page table the kernel hands pages out of (768 + 8 at boot). */
  const FIRST_TABLE: nat := 776

  /** The number of untaken pages in `t[lo..hi]`. */
  function Untaken(t: seq<bool>, lo: nat, hi: nat): (n: nat)
    requires lo <= hi <= |t|
    ensures n <= hi - lo
    ensures n == 0 <==> forall k :: lo <= k < hi ==> t[k]
  {
    if lo == hi then 0 else Untaken(t, lo, hi - 1) + (if t[hi - 1] then 0 else 1)
  }

  function TableUntaken(t: seq<bool>, pde: nat): nat
    requires |t| == TOTAL && pde < NUM_OF_PDE
  {
    Untaken(t, pde * NUM_OF_PTE, pde * NUM_OF_PTE + NUM_OF_PTE)
  }

  /** Every `num_of_free_pages` is the number of untaken pages of its table. */
  ghost predicate CountsAgree(t: seq<bool>, f: seq<int>) {
    && |t| == TOTAL && |f| == NUM_OF_PDE
    && forall pde :: FIRST_TABLE <= pde < NUM_OF_PDE ==> f[pde] == TableUntaken(t, pde)
  }

  /** `live` lists the tables that still have a free page, in order: the ones the search looks into. */
  ghost predicate LiveList(f: seq<int>, live: seq<nat>) {
    && |f| == NUM_OF_PDE
    && (forall j :: 0 <= j < |live| ==> FIRST_TABLE <= live[j] < NUM_OF_PDE && f[live[j]] != 0)
    && Ascending(live)
    && (forall pde :: FIRST_TABLE <= pde < NUM_OF_PDE && f[pde] != 0 ==> pde in live)
  }

  ghost predicate Ascending(live: seq<nat>) {
    forall i, j :: 0 <= i < j < |live| ==> live[i] < live[j]
  }

  ghost function LiveUpTo(f: seq<int>, hi: nat): (live: seq<nat>)
    requires FIRST_TABLE <= hi <= |f|
    ensures forall j :: 0 <= j < |live| ==> FIRST_TABLE <= live[j] < hi && f[live[j]] != 0
    ensures Ascending(live)
    ensures forall pde :: FIRST_TABLE <= pde < hi && f[pde] != 0 ==> pde in live
  {
    if hi == FIRST_TABLE then []
    else if f[hi - 1] != 0 then LiveUpTo(f, hi - 1) + [hi - 1]
    else LiveUpTo(f, hi - 1)
  }

  ghost function LiveTables(f: seq<int>): (live: seq<nat>)
    requires |f| == NUM_OF_PDE
    ensures LiveList(f, live)
  {
    LiveUpTo(f, |f|)
  }

  /** The `q`-th page of the live tables laid end to end, as an index into the whole directory. */
  function Page(live: seq<nat>, q: nat): nat
    requires q < |live| * NUM_OF_PTE
  {
    live[q / NUM_OF_PTE] * NUM_OF_PTE + q % NUM_OF_PTE
  }

  ghost predicate InDirectory(t: seq<bool>, live: seq<nat>) {
    |t| == TOTAL && forall j :: 0 <= j < |live| ==> live[j] < NUM_OF_PDE
  }

  /** `n` free pages from position `q` on, with the skipped tables cut out. */
  ghost predicate FreeRun(t: seq<bool>, live: seq<nat>, q: nat, n: nat)
    requires InDirectory(t, live)
  {
    q + n <= |live| * NUM_OF_PTE && forall k :: q <= k < q + n ==> !t[Page(live, k)]
  }

  ghost predicate FirstRun(t: seq<bool>, live: seq<nat>, q: nat, n: nat)
    requires InDirectory(t, live)
  {
    FreeRun(t, live, q, n) && forall p :: 0 <= p < q ==> !FreeRun(t, live, p, n)
  }

  /** The run does not reach across a skipped table. */
  predicate Contiguous(live: seq<nat>, q: nat, n: nat)
    requires 0 < n && q + n <= |live| * NUM_OF_PTE
  {
    var a, b := q / NUM_OF_PTE, (q + n - 1) / NUM_OF_PTE;
    live[b] + a == live[a] + b
  }

  /** The start the code computes: last table minus the number of table ends crossed, same slot. */
  function ComputedStart(live: seq<nat>, q: nat, n: nat): int
    requires 0 < n && q + n <= |live| * NUM_OF_PTE
  {
    var a, b := q / NUM_OF_PTE, (q + n - 1) / NUM_OF_PTE;
    (live[b] - (b - a)) * NUM_OF_PTE + q % NUM_OF_PTE
  }

  /** `n` free neighbouring pages of the directory itself, from page `p` on. */
  ghost predicate RealRun(t: seq<bool>, p: nat, n: nat) {
    && |t| == TOTAL && FIRST_TABLE * NUM_OF_PTE <= p && p + n <= TOTAL
    && forall k :: p <= k < p + n ==> !t[k]
  }

  // ---------- Live tables ----------

  lemma {:induction false} LiveGaps(live: seq<nat>, a: nat, b: nat)
    requires Ascending(live) && a <= b < |live|
    ensures live[a] + (b - a) <= live[b]
    decreases b - a
  {
    if a < b {
      LiveGaps(live, a, b - 1);
    }
  }

  lemma NoGapInside(live: seq<nat>, a: nat, b: nat, j: nat)
    requires Ascending(live) && a <= j <= b < |live| && live[b] == live[a] + (b - a)
    ensures live[j] == live[a] + (j - a)
  {
    LiveGaps(live, a, j);
    LiveGaps(live, j, b);
  }

  /** The last jump over skipped tables inside `[a, b]`. */
  lemma {:induction false} LastGap(live: seq<nat>, a: nat, b: nat) returns (j: nat)
    requires Ascending(live) && a <= b < |live| && live[b] > live[a] + (b - a)
    ensures a < j <= b && live[j] > live[j - 1] + 1 && live[b] == live[j] + (b - j)
    decreases b - a
  {
    if live[b] > live[b - 1] + 1 {
      j := b;
    } else {
      j := LastGap(live, a, b - 1);
    }
  }

  /** A table strictly between two neighbouring live ones has no free page. */
  lemma SkippedIsFull(t: seq<bool>, f: seq<int>, live: seq<nat>, j: nat, pde: nat)
    requires CountsAgree(t, f) && LiveList(f, live)
    requires 0 < j < |live| && live[j - 1] < pde < live[j]
    ensures forall k :: pde * NUM_OF_PTE <= k < pde * NUM_OF_PTE + NUM_OF_PTE ==> t[k]
  {
    assert pde !in live;
    assert TableUntaken(t, pde) == 0;
  }

  // ---------- What the computed start means ----------

  /** Without a skipped table inside, page `k` of the run is page `k` from the computed start. */
  lemma ContiguousPages(live: seq<nat>, q: nat, n: nat, k: nat)
    requires Ascending(live)
    requires 0 < n && q + n <= |live| * NUM_OF_PTE && Contiguous(live, q, n)
    requires k < n
    ensures Page(live, q + k) == ComputedStart(live, q, n) + k
  {
    var a, b := q / NUM_OF_PTE, (q + n - 1) / NUM_OF_PTE;
    NoGapInside(live, a, b, (q + k) / NUM_OF_PTE);
  }

  /** With a skipped table inside, the pages from the computed start run into a fully taken table. */
  lemma BridgedHitsTaken(t: seq<bool>, f: seq<int>, live: seq<nat>, q: nat, n: nat) returns (k: nat)
    requires CountsAgree(t, f) && LiveList(f, live)
    requires 0 < n && q + n <= |live| * NUM_OF_PTE && !Contiguous(live, q, n)
    ensures var s := ComputedStart(live, q, n); k < n && 0 <= s + k < TOTAL && t[s + k]
  {
    var a, b := q / NUM_OF_PTE, (q + n - 1) / NUM_OF_PTE;
    LiveGaps(live, a, b);
    var j := LastGap(live, a, b);
    var full := live[j] - 1;
    SkippedIsFull(t, f, live, j, full);
    var s := ComputedStart(live, q, n);
    k := if full == live[b] - (b - a) then 0 else full * NUM_OF_PTE - s;
  }

  // ---------- Real runs ----------

  lemma TableOfFreePage(t: seq<bool>, f: seq<int>, live: seq<nat>, p: nat)
    requires CountsAgree(t, f) && LiveList(f, live) && FIRST_TABLE * NUM_OF_PTE <= p < TOTAL && !t[p]
    ensures p / NUM_OF_PTE in live
  {
  }

  lemma {:induction false} LiveRunOfTables(t: seq<bool>, f: seq<int>, live: seq<nat>, p: nat, n: nat, a: nat, pde: nat)
    requires CountsAgree(t, f) && LiveList(f, live) && 0 < n && RealRun(t, p, n)
    requires p / NUM_OF_PTE <= pde <= (p + n - 1) / NUM_OF_PTE
    requires a < |live| && live[a] == p / NUM_OF_PTE
    ensures var d := pde - p / NUM_OF_PTE; a + d < |live| && live[a + d] == pde
    decreases pde
  {
    if p / NUM_OF_PTE < pde {
      hide CountsAgree, LiveList;
      LiveRunOfTables(t, f, live, p, n, a, pde - 1);
      TableOfFreePage(t, f, live, pde * NUM_OF_PTE);
      LiveSuccessor(f, live, a + (pde - 1 - p / NUM_OF_PTE));
    }
  }

  lemma LiveSuccessor(f: seq<int>, live: seq<nat>, i: nat)
    requires LiveList(f, live) && i < |live| && live[i] + 1 in live
    ensures i + 1 < |live| && live[i + 1] == live[i] + 1
  {
  }

  lemma RealRunPage(t: seq<bool>, f: seq<int>, live: seq<nat>, p: nat, n: nat, a: nat, k: nat)
    requires CountsAgree(t, f) && LiveList(f, live) && 0 < n && RealRun(t, p, n)
    requires a < |live| && live[a] == p / NUM_OF_PTE && k < n
    ensures var x := a * NUM_OF_PTE + p % NUM_OF_PTE + k; x < |live| * NUM_OF_PTE && Page(live, x) == p + k
  {
    hide CountsAgree, LiveList;
    var pde := (p + k) / NUM_OF_PTE;
    LiveRunOfTables(t, f, live, p, n, a, pde);
    assert (a * NUM_OF_PTE + p % NUM_OF_PTE + k) / NUM_OF_PTE == a + (pde - p / NUM_OF_PTE);
  }

  /** A run of neighbouring free pages is also a run of the live tables. */
  lemma RealRunIsLive(t: seq<bool>, f: seq<int>, live: seq<nat>, p: nat, n: nat) returns (q: nat)
    requires CountsAgree(t, f) && LiveList(f, live) && 0 < n && RealRun(t, p, n)
    ensures InDirectory(t, live) && FreeRun(t, live, q, n)
    ensures forall x :: q <= x < q + n ==> Page(live, x) == p + (x - q)
  {
    TableOfFreePage(t, f, live, p);
    var a :| 0 <= a < |live| && live[a] == p / NUM_OF_PTE;
    q := a * NUM_OF_PTE + p % NUM_OF_PTE;
    hide CountsAgree, Page;
    RealRunPage(t, f, live, p, n, a, n - 1);
    forall x | q <= x < q + n
      ensures Page(live, x) == p + (x - q)
    {
      RealRunPage(t, f, live, p, n, a, x - q);
    }
  }

  lemma PageMonotone(live: seq<nat>, q: nat, q': nat)
    requires Ascending(live) && q <= q' < |live| * NUM_OF_PTE
    ensures Page(live, q) <= Page(live, q')
  {
  }

  /** The first run of the live tables, if it bridges no skipped table, is the lowest real run. */
  lemma FirstRunIsLowest(t: seq<bool>, f: seq<int>, live: seq<nat>, q: nat, n: nat)
    requires CountsAgree(t, f) && LiveList(f, live) && InDirectory(t, live)
    requires 0 < n && FirstRun(t, live, q, n) && Contiguous(live, q, n)
    ensures var s := ComputedStart(live, q, n); s >= 0 && RealRun(t, s, n)
    ensures forall p :: 0 <= p < ComputedStart(live, q, n) ==> !RealRun(t, p, n)
  {
    var s := ComputedStart(live, q, n);
    ContiguousPages(live, q, n, 0);
    ContiguousPages(live, q, n, n - 1);
    forall k | s <= k < s + n
      ensures !t[k]
    {
      ContiguousPages(live, q, n, k - s);
    }
    forall p | 0 <= p < s
      ensures !RealRun(t, p, n)
    {
      if RealRun(t, p, n) {
        var q' := RealRunIsLive(t, f, live, p, n);
        PageMonotone(live, q, q');
        assert false;
      }
    }
  }

  predicate LastPageTaken(t: seq<bool>, pde: nat)
    requires |t| == TOTAL && pde < NUM_OF_PDE
  {
    t[pde * NUM_OF_PTE + NUM_OF_PTE - 1]
  }

  /** Before page `p`, no fully taken table directly follows a table whose last page is free. */
  ghost predicate Unbridged(t: seq<bool>, p: nat)
    requires |t| == TOTAL && p <= TOTAL
  {
    forall pde, next :: FIRST_TABLE <= pde && next == pde + 1 && (next + 1) * NUM_OF_PTE <= p ==>
      LastPageTaken(t, pde) || TableUntaken(t, next) > 0
  }

  /** A run that bridges a gap has a free last page before it and a full table in it. */
  lemma BridgeAtGap(t: seq<bool>, f: seq<int>, live: seq<nat>, q: nat, n: nat, j: nat)
    requires CountsAgree(t, f) && LiveList(f, live) && InDirectory(t, live) && FreeRun(t, live, q, n)
    requires 0 < j < |live| && q < j * NUM_OF_PTE < q + n && live[j] > live[j - 1] + 1
    ensures live[j - 1] + 1 < NUM_OF_PDE && TableUntaken(t, live[j - 1] + 1) == 0 && !LastPageTaken(t, live[j - 1])
  {
    SkippedIsFull(t, f, live, j, live[j - 1] + 1);
    hide CountsAgree, LiveList;
    assert Page(live, j * NUM_OF_PTE - 1) == live[j - 1] * NUM_OF_PTE + NUM_OF_PTE - 1;
  }

  /** A real run that is found no earlier than a run across a gap starts behind the gap. */
  lemma BehindGap(t: seq<bool>, live: seq<nat>, q: nat, p: nat, n: nat, q': nat, j: nat)
    requires Ascending(live) && InDirectory(t, live) && FreeRun(t, live, q', n) && 0 < n && q <= q'
    requires forall x :: q' <= x < q' + n ==> Page(live, x) == p + (x - q')
    requires 0 < j < |live| && q < j * NUM_OF_PTE < q + n && live[j] > live[j - 1] + 1
    ensures live[j] * NUM_OF_PTE <= p
  {
    var gap := j * NUM_OF_PTE;
    assert Page(live, gap) == live[j] * NUM_OF_PTE;
    assert Page(live, gap - 1) == live[j - 1] * NUM_OF_PTE + NUM_OF_PTE - 1;
    assert gap <= q';
    PageMonotone(live, gap, q');
  }

  /** That is enough for the search to come back with the lowest run. */
  lemma UnbridgedIsContiguous(t: seq<bool>, f: seq<int>, live: seq<nat>, q: nat, n: nat, p: nat)
    requires CountsAgree(t, f) && LiveList(f, live) && InDirectory(t, live)
    requires 0 < n && FirstRun(t, live, q, n)
    requires RealRun(t, p, n) && Unbridged(t, p)
    ensures Contiguous(live, q, n)
  {
    hide CountsAgree, FreeRun, Page, RealRun, LastPageTaken, TableUntaken;
    var a, b := q / NUM_OF_PTE, (q + n - 1) / NUM_OF_PTE;
    RunFits(t, live, q, n);
    if !Contiguous(live, q, n) {
      LiveGaps(live, a, b);
      var j := LastGap(live, a, b);
      BridgeAtGap(t, f, live, q, n, j);
      var q' := RealRunIsLive(t, f, live, p, n);
      BehindGap(t, live, q, p, n, q', j);
      assert false;
    }
  }

  lemma RunFits(t: seq<bool>, live: seq<nat>, q: nat, n: nat)
    requires InDirectory(t, live) && FreeRun(t, live, q, n)
    ensures q + n <= |live| * NUM_OF_PTE
  {
  }
}
