/** Whole runs of `alloc_pages` and `free_pages`: who owns which pages. */
module PageRuns {
  import opened PageSearch
  import opened Paging

  /** `len` pages from page `start` on, as handed out by one call. */
  datatype Run = Run(start: nat, len: nat) {
    predicate Has(k: int) { start <= k < start + len }
    predicate Inside() { 0 < len && FIRST_TABLE * NUM_OF_PTE <= start && start + len <= TOTAL }
    /** `calc_pt_offset` finds the way back to the first page. */
    predicate Returnable() { start % NUM_OF_PTE < 16 }
  }

  // ---------- Unmarking and the counters ----------

  /** How many of the first `n` pages from `s` lie in table `pde` and are taken. */
  function TakenIn(t: seq<bool>, s: nat, n: nat, pde: nat): (c: nat)
    requires s + n <= |t|
    ensures c <= Overlap(s, n, pde)
    ensures c == Overlap(s, n, pde) <==> forall k :: s <= k < s + n && k / NUM_OF_PTE == pde ==> t[k]
  {
    if n == 0 then 0
    else TakenIn(t, s, n - 1, pde) + (if (s + n - 1) / NUM_OF_PTE == pde && t[s + n - 1] then 1 else 0)
  }

  lemma {:induction false} UntakenReleased(t: seq<bool>, lo: nat, hi: nat, x: nat)
    requires lo <= hi <= |t| && x < |t|
    ensures Untaken(t[x := false], lo, hi) == Untaken(t, lo, hi) + (if lo <= x < hi && t[x] then 1 else 0)
    decreases hi
  {
    if lo < hi {
      UntakenReleased(t, lo, hi - 1, x);
    }
  }

  lemma {:induction false} UntakenAfterFree(t: seq<bool>, s: nat, n: nat, pde: nat)
    requires |t| == TOTAL && s + n <= TOTAL && pde < NUM_OF_PDE
    ensures TableUntaken(Fill(t, s, n, false), pde) == TableUntaken(t, pde) + TakenIn(t, s, n, pde)
    decreases n
  {
    if n == 0 {
      assert Fill(t, s, 0, false) == t;
    } else {
      var before := Fill(t, s, n - 1, false);
      UntakenAfterFree(t, s, n - 1, pde);
      assert before[s + n - 1 := false] == Fill(t, s, n, false) && before[s + n - 1] == t[s + n - 1];
      hide Fill, Untaken;
      UntakenReleased(before, pde * NUM_OF_PTE, pde * NUM_OF_PTE + NUM_OF_PTE, s + n - 1);
    }
  }

  /** Releasing pages keeps every counter right exactly when all of them were taken. */
  lemma FreeKeepsCountsIff(t: seq<bool>, f: seq<int>, s: nat, n: nat)
    requires CountsAgree(t, f) && FIRST_TABLE * NUM_OF_PTE <= s && s + n <= TOTAL
    ensures CountsAgree(Fill(t, s, n, false), Bump(f, s, n, 1)) <==> forall k :: s <= k < s + n ==> t[k]
  {
    var t', f' := Fill(t, s, n, false), Bump(f, s, n, 1);
    forall pde | FIRST_TABLE <= pde < NUM_OF_PDE
      ensures f'[pde] == TableUntaken(t', pde) <==> forall k :: s <= k < s + n && k / NUM_OF_PTE == pde ==> t[k]
    {
      UntakenAfterFree(t, s, n, pde);
    }
    hide Fill, Bump, TableUntaken;
    if CountsAgree(t', f') {
      forall k | s <= k < s + n
        ensures t[k]
      {
        assert f'[k / NUM_OF_PTE] == TableUntaken(t', k / NUM_OF_PTE);
      }
    }
  }

  /** Marking a free run keeps every counter right. */
  lemma {:induction false} TakeKeepsCounts(t: seq<bool>, f: seq<int>, s: nat, n: nat)
    requires CountsAgree(t, f) && s + n <= TOTAL && forall k :: s <= k < s + n ==> !t[k]
    ensures CountsAgree(Fill(t, s, n, true), Bump(f, s, n, -1))
    decreases n
  {
    if n == 0 {
      NothingMarked(t, f, s, true, -1);
    } else {
      TakeKeepsCounts(t, f, s, n - 1);
      FillStep(t, s, n - 1, true);
      BumpStep(f, s, n - 1, -1);
      hide CountsAgree, Bump;
      MarkKeepsCounts(Fill(t, s, n - 1, true), Bump(f, s, n - 1, -1), s + n - 1);
    }
  }

  // ---------- Ownership ----------

  /** The taken pages of the dynamic tables are exactly the ones of the runs in hand, which do not overlap. */
  ghost predicate Owned(t: seq<bool>, held: set<Run>) {
    && |t| == TOTAL
    && (forall r :: r in held ==> r.Inside())
    && (forall r, r', k :: r in held && r' in held && r.Has(k) && r'.Has(k) ==> r == r')
    && (forall k :: FIRST_TABLE * NUM_OF_PTE <= k < TOTAL ==> (t[k] <==> exists r :: r in held && r.Has(k)))
  }

  datatype State = State(t: seq<bool>, f: seq<int>, held: set<Run>)

  ghost predicate Inv(st: State) {
    CountsAgree(st.t, st.f) && Owned(st.t, st.held)
  }

  function Taken(st: State, r: Run): State
    requires r.start + r.len <= |st.t|
  {
    State(Fill(st.t, r.start, r.len, true), Bump(st.f, r.start, r.len, -1), st.held + {r})
  }

  /** What `free_pages` does with the address of `r`: it starts at the slot modulo 16. */
  function Returned(st: State, r: Run): State
    requires r.Inside() && |st.t| == TOTAL
  {
    var s := r.start / NUM_OF_PTE * NUM_OF_PTE + r.start % NUM_OF_PTE % 16;
    State(Fill(st.t, s, r.len, false), Bump(st.f, s, r.len, 1), st.held - {r})
  }

  lemma TakeOwned(t: seq<bool>, held: set<Run>, r: Run)
    requires Owned(t, held) && r.Inside() && forall k :: r.Has(k) ==> !t[k]
    ensures r !in held && Owned(Fill(t, r.start, r.len, true), held + {r})
  {
    var t', held' := Fill(t, r.start, r.len, true), held + {r};
    assert r.Has(r.start);
    forall k | FIRST_TABLE * NUM_OF_PTE <= k < TOTAL
      ensures t'[k] <==> exists r' :: r' in held' && r'.Has(k)
    {
      if r' :| r' in held' && r'.Has(k) {
        assert r' == r || r' in held;
      }
      if t'[k] && !r.Has(k) {
        var r' :| r' in held && r'.Has(k);
        assert r' in held';
      }
    }
  }

  lemma TakeKeeps(st: State, r: Run)
    requires Inv(st) && r.Inside() && RealRun(st.t, r.start, r.len)
    ensures r !in st.held && Inv(Taken(st, r))
  {
    hide CountsAgree, Owned, Fill, Bump;
    TakeKeepsCounts(st.t, st.f, r.start, r.len);
    TakeOwned(st.t, st.held, r);
  }

  lemma GiveOwned(t: seq<bool>, held: set<Run>, r: Run)
    requires Owned(t, held) && r in held
    ensures Owned(Fill(t, r.start, r.len, false), held - {r})
  {
  }

  /** The last page of a run in hand is nobody else's, so it may not stay taken. */
  lemma LastPageBreaks(t: seq<bool>, t': seq<bool>, held: set<Run>, r: Run)
    requires Owned(t, held) && r in held
    requires |t'| == TOTAL && t'[r.start + r.len - 1]
    ensures !Owned(t', held - {r})
  {
  }

  lemma GiveReturnable(st: State, r: Run)
    requires Inv(st) && r in st.held && r.Inside() && r.Returnable()
    ensures Inv(Returned(st, r))
  {
    assert r.start / NUM_OF_PTE * NUM_OF_PTE + r.start % NUM_OF_PTE % 16 == r.start;
    assert forall k :: r.Has(k) ==> st.t[k];
    hide Fill, Bump, CountsAgree, Owned;
    FreeKeepsCountsIff(st.t, st.f, r.start, r.len);
    GiveOwned(st.t, st.held, r);
  }

  /** Giving a run back keeps the books right exactly when its first slot is below 16. */
  lemma GiveKeepsIff(st: State, r: Run)
    requires Inv(st) && r in st.held
    ensures r.Inside()
    ensures Inv(Returned(st, r)) <==> r.Returnable()
  {
    if r.Returnable() {
      GiveReturnable(st, r);
    } else {
      assert r.Inside() && r.Has(r.start + r.len - 1);
      hide CountsAgree, Bump;
      LastPageBreaks(st.t, Returned(st, r).t, st.held, r);
    }
  }

  // ---------- Runs ----------

  datatype Request = Get(n: nat) | Put(r: Run)

  /** A `Get` finds a first run that bridges no full table; a `Put` returns a run in hand from a slot below 16. */
  ghost predicate Permitted(st: State, request: Request) {
    && |st.t| == TOTAL && |st.f| == NUM_OF_PDE
    && match request
       case Get(n) => 0 < n && AllocSucceeds(st.t, st.f, n)
       case Put(r) => r in st.held && r.Returnable()
  }

  ghost predicate HasLowest(t: seq<bool>, n: nat) {
    exists s :: LowestRun(t, s, n)
  }

  /** The start of the lowest free run of `n` pages. */
  ghost function Lowest(t: seq<bool>, n: nat): (s: nat)
    requires HasLowest(t, n)
    ensures LowestRun(t, s, n)
  {
    var s :| LowestRun(t, s, n);
    s
  }

  lemma GetFindsLowest(t: seq<bool>, f: seq<int>, n: nat)
    requires CountsAgree(t, f) && 0 < n && AllocSucceeds(t, f, n)
    ensures HasRun(t, f, n) && HasLowest(t, n)
  {
    var q: nat :| FirstRun(t, LiveTables(f), q, n) && Contiguous(LiveTables(f), q, n);
    AllocOutcome(t, f, q, n);
  }

  ghost function Next(st: State, request: Request): State {
    match request
    case Get(n) => if HasLowest(st.t, n) then Taken(st, Run(Lowest(st.t, n), n)) else st
    case Put(r) => if r.Inside() && |st.t| == TOTAL then Returned(st, r) else st
  }

  function AddressOf(r: Run): nat {
    VirtualAddr(r.start / NUM_OF_PTE, r.start % NUM_OF_PTE)
  }

  /** What the caller is given: the address of the run that `Next` adds to the ones in hand. */
  ghost function Answer(st: State, request: Request): nat {
    match request
    case Get(n) => if HasLowest(st.t, n) then AddressOf(Run(Lowest(st.t, n), n)) else 0
    case Put(_) => 0
  }

  lemma StepKeeps(st: State, request: Request)
    requires Inv(st) && Permitted(st, request)
    ensures Inv(Next(st, request))
  {
    match request
    case Get(n) =>
      GetFindsLowest(st.t, st.f, n);
      TakeKeeps(st, Run(Lowest(st.t, n), n));
    case Put(r) => GiveKeepsIff(st, r);
  }

  ghost predicate RunPermitted(st: State, requests: seq<Request>)
    decreases |requests|
  {
    requests == [] || (Permitted(st, requests[0]) && RunPermitted(Next(st, requests[0]), requests[1..]))
  }

  ghost function RunTo(st: State, requests: seq<Request>): State
    decreases |requests|
  {
    if requests == [] then st else RunTo(Next(st, requests[0]), requests[1..])
  }

  ghost function Answers(st: State, requests: seq<Request>): seq<nat>
    decreases |requests|
  {
    if requests == [] then [] else [Answer(st, requests[0])] + Answers(Next(st, requests[0]), requests[1..])
  }

  /** In every permitted run the runs in hand are disjoint, the counters are right, and once everything
      is given back every page is free again. */
  lemma {:induction false} RunKeeps(st: State, requests: seq<Request>)
    requires Inv(st) && RunPermitted(st, requests)
    ensures Inv(RunTo(st, requests))
    ensures RunTo(st, requests).held == {} ==>
              forall k :: FIRST_TABLE * NUM_OF_PTE <= k < TOTAL ==> !RunTo(st, requests).t[k]
    decreases |requests|
  {
    if requests != [] {
      hide CountsAgree, Owned, Permitted, Next;
      StepKeeps(st, requests[0]);
      RunKeeps(Next(st, requests[0]), requests[1..]);
    }
  }

  // ---------- The code ----------

  /** The allocator serves any permitted run and hands out the addresses of the abstract run. */
  method Serve(d: PageDirectory, requests: seq<Request>, ghost held: set<Run>)
    returns (answers: seq<nat>, ghost held': set<Run>)
    requires d.Valid() && Inv(State(d.taken[..], d.freePages[..], held))
    requires RunPermitted(State(d.taken[..], d.freePages[..], held), requests)
    modifies d.taken, d.freePages
    ensures d.Valid()
    ensures State(d.taken[..], d.freePages[..], held') == RunTo(old(State(d.taken[..], d.freePages[..], held)), requests)
    ensures answers == Answers(old(State(d.taken[..], d.freePages[..], held)), requests)
    decreases |requests|
  {
    answers, held' := [], held;
    if requests == [] {
      return;
    }
    hide Inv, CountsAgree, Permitted, Next, Answer;
    ghost var st := State(d.taken[..], d.freePages[..], held);
    StepKeeps(st, requests[0]);
    var answer, rest;
    answer, held' := ServeOne(d, requests[0], held);
    rest, held' := Serve(d, requests[1..], held');
    answers := [answer] + rest;
  }

  method ServeOne(d: PageDirectory, request: Request, ghost held: set<Run>) returns (answer: nat, ghost held': set<Run>)
    requires d.Valid() && Inv(State(d.taken[..], d.freePages[..], held))
    requires Permitted(State(d.taken[..], d.freePages[..], held), request)
    modifies d.taken, d.freePages
    ensures d.Valid()
    ensures State(d.taken[..], d.freePages[..], held') == Next(old(State(d.taken[..], d.freePages[..], held)), request)
    ensures answer == Answer(old(State(d.taken[..], d.freePages[..], held)), request)
  {
    hide CountsAgree, Fill, Bump, RealRun, VirtualAddr, CalcPdOffset, CalcPtOffset, AllocSucceeds, HasRun;
    ghost var st := State(d.taken[..], d.freePages[..], held);
    StepKeeps(st, request);
    match request
    case Get(n) =>
      GetFindsLowest(st.t, st.f, n);
      var r := d.AllocPages(n);
      answer := r.vaddr;
      held' := held + {Run(Lowest(st.t, n), n)};
    case Put(r) =>
      PutAddress(r);
      d.FreePages(AddressOf(r), r.len);
      answer := 0;
      held' := held - {r};
  }

  lemma PutAddress(r: Run)
    requires r.Inside()
    ensures var v := AddressOf(r);
            CalcPdOffset(v) * NUM_OF_PTE + CalcPtOffset(v) == r.start / NUM_OF_PTE * NUM_OF_PTE + r.start % NUM_OF_PTE % 16
  {
    OffsetsOfVirtualAddr(r.start / NUM_OF_PTE, r.start % NUM_OF_PTE);
  }

  // ---------- The hang is reachable ----------

  /** All pages free and the boot tables counted as full. */
  function Fresh(): State {
    State(seq(TOTAL, _ => false), seq(NUM_OF_PDE, pde => if pde < FIRST_TABLE then 0 else NUM_OF_PTE), {})
  }

  lemma FreshKeeps()
    ensures Inv(Fresh()) && TakenBetween(Fresh(), 0, 0)
  {
    var st := Fresh();
    forall pde | FIRST_TABLE <= pde < NUM_OF_PDE
      ensures st.f[pde] == TableUntaken(st.t, pde)
    {
      AllUntaken(st.t, pde * NUM_OF_PTE, pde * NUM_OF_PTE + NUM_OF_PTE);
    }
  }

  ghost predicate Reaches(st: State, requests: seq<Request>, st': State) {
    RunPermitted(st, requests) && RunTo(st, requests) == st'
  }

  lemma ReachesMore(st: State, request: Request, rest: seq<Request>, st': State)
    requires Permitted(st, request) && Reaches(Next(st, request), rest, st')
    ensures Reaches(st, [request] + rest, st')
  {
    hide Permitted, Next;
    assert ([request] + rest)[1..] == rest;
  }

  /** A request whose lowest run has no bridge before it is served with that run. */
  lemma GetStep(st: State, s: nat, n: nat)
    requires Inv(st) && 0 < n && LowestRun(st.t, s, n) && Unbridged(st.t, s)
    ensures Permitted(st, Get(n)) && Next(st, Get(n)) == Taken(st, Run(s, n)) && Inv(Taken(st, Run(s, n)))
  {
    UnbridgedAllocSucceeds(st.t, st.f, n, s);
    TakeKeeps(st, Run(s, n));
    hide Inv, AllocSucceeds, HasRun, Taken, Unbridged, RealRun;
    assert HasLowest(st.t, n);
    assert Lowest(st.t, n) == s;
  }

  /** Exactly the pages `[lo, hi)`, counted from the first dynamic table, are taken. */
  ghost predicate TakenBetween(st: State, lo: nat, hi: nat) {
    var first := FIRST_TABLE * NUM_OF_PTE;
    |st.t| == TOTAL && forall k :: 0 <= k < TOTAL ==> (st.t[k] <==> first + lo <= k < first + hi)
  }

  ghost predicate Leads(st: State, request: Request, st': State) {
    Permitted(st, request) && Next(st, request) == st' && Inv(st')
  }

  function FirstTable(): Run { Run(FIRST_TABLE * NUM_OF_PTE, 1024) }

  /** A free run of the first two tables behind taken pages only. */
  lemma GetNear(st: State, s: nat, n: nat)
    requires Inv(st) && 0 < n && RealRun(st.t, s, n) && s <= FIRST_TABLE * NUM_OF_PTE + 1024
    requires forall k :: FIRST_TABLE * NUM_OF_PTE <= k < s ==> st.t[k]
    ensures Leads(st, Get(n), Taken(st, Run(s, n)))
  {
    hide Inv;
    forall p | 0 <= p < s
      ensures !RealRun(st.t, p, n)
    {
      assert p < FIRST_TABLE * NUM_OF_PTE || st.t[p];
    }
    GetStep(st, s, n);
  }

  lemma FillTable(st: State, hi: nat) returns (st': State)
    requires Inv(st) && TakenBetween(st, 0, hi) && hi <= 1024
    ensures Leads(st, Get(1024), st') && TakenBetween(st', 0, hi + 1024)
    ensures st'.held == st.held + {Run(FIRST_TABLE * NUM_OF_PTE + hi, 1024)}
  {
    hide Inv, Leads, Bump;
    GetNear(st, FIRST_TABLE * NUM_OF_PTE + hi, 1024);
    st' := Taken(st, Run(FIRST_TABLE * NUM_OF_PTE + hi, 1024));
  }

  lemma ReturnFirst(st: State) returns (st': State)
    requires Inv(st) && TakenBetween(st, 0, 2048) && FirstTable() in st.held
    ensures Leads(st, Put(FirstTable()), st') && TakenBetween(st', 1024, 2048)
  {
    assert |st.f| == NUM_OF_PDE;
    hide Inv, Bump;
    GiveKeepsIff(st, FirstTable());
    st' := Returned(st, FirstTable());
  }

  lemma RetakeFirst(st: State) returns (st': State)
    requires Inv(st) && TakenBetween(st, 1024, 2048)
    ensures Leads(st, Get(1023), st') && st'.t == BridgedPages()
  {
    hide Inv, Leads, Bump;
    GetNear(st, FIRST_TABLE * NUM_OF_PTE, 1023);
    st' := Taken(st, Run(FIRST_TABLE * NUM_OF_PTE, 1023));
  }

  /** Two tables are filled, the first is given back and taken again up to its last page. */
  function BridgeRequests(): seq<Request> {
    [Get(1024)] + ([Get(1024)] + ([Put(FirstTable())] + ([Get(1023)] + [])))
  }

  lemma BridgeReached() returns (st: State)
    ensures Reaches(Fresh(), BridgeRequests(), st) && Inv(st) && st.t == BridgedPages()
  {
    hide Inv, Reaches, Next, BridgedPages, Fresh, TakenBetween, Permitted;
    var st0 := Fresh();
    FreshKeeps();
    var st1 := FillTable(st0, 0);
    var st2 := FillTable(st1, 1024);
    var st3 := ReturnFirst(st2);
    st := RetakeFirst(st3);
    ReachesNothing(st);
    ReachesMore(st3, Get(1023), [], st);
    ReachesMore(st2, Put(FirstTable()), [Get(1023)] + [], st);
    ReachesMore(st1, Get(1024), [Put(FirstTable())] + ([Get(1023)] + []), st);
    ReachesMore(st0, Get(1024), [Get(1024)] + ([Put(FirstTable())] + ([Get(1023)] + [])), st);
  }

  lemma ReachesNothing(st: State)
    ensures Reaches(st, [], st)
  {
  }

  /** A permitted run from the initial state after which two pages are wanted and there are plenty, but the
      search bridges the full second table and hangs. */
  lemma HangReached() returns (st: State)
    ensures Reaches(Fresh(), BridgeRequests(), st) && Inv(st)
    ensures RealRun(st.t, (FIRST_TABLE + 2) * NUM_OF_PTE, 2) && HasRun(st.t, st.f, 2) && !AllocSucceeds(st.t, st.f, 2)
  {
    st := BridgeReached();
    hide Reaches, Owned, CountsAgree;
    BridgeHangs(st.t, st.f);
  }

  // ---------- The wrong release is reachable ----------

  function SlotSixteen(): Run { Run(FIRST_TABLE * NUM_OF_PTE + 16, 1) }

  lemma SixteenTaken(st: State) returns (st': State)
    requires Inv(st) && TakenBetween(st, 0, 0)
    ensures Leads(st, Get(16), st') && TakenBetween(st', 0, 16)
  {
    hide Inv, Leads, Bump;
    GetNear(st, FIRST_TABLE * NUM_OF_PTE, 16);
    st' := Taken(st, Run(FIRST_TABLE * NUM_OF_PTE, 16));
  }

  lemma SeventeenthTaken(st: State) returns (st': State)
    requires Inv(st) && TakenBetween(st, 0, 16)
    ensures Leads(st, Get(1), st') && SlotSixteen() in st'.held
  {
    hide Inv, Leads, Bump;
    GetNear(st, FIRST_TABLE * NUM_OF_PTE + 16, 1);
    st' := Taken(st, SlotSixteen());
  }

  /** After sixteen pages and one more, `free_pages` with the address of the one releases the wrong page. */
  lemma WrongReleaseReached() returns (st: State)
    ensures Reaches(Fresh(), [Get(16)] + ([Get(1)] + []), st)
    ensures Inv(st) && SlotSixteen() in st.held && !Inv(Returned(st, SlotSixteen()))
  {
    hide Inv, Reaches, Next, Fresh, TakenBetween, Permitted;
    FreshKeeps();
    var st1 := SixteenTaken(Fresh());
    st := SeventeenthTaken(st1);
    ReachesNothing(st);
    ReachesMore(st1, Get(1), [], st);
    ReachesMore(Fresh(), Get(16), [Get(1)] + [], st);
    GiveKeepsIff(st, SlotSixteen());
  }

  /** The first pages handed out are at 0xC2000000. */
  lemma FirstAddress(n: nat)
    requires 0 < n <= 248 * 1024
    ensures Permitted(Fresh(), Get(n)) && Answer(Fresh(), Get(n)) == 0xC200_0000
  {
    var first := FIRST_TABLE * NUM_OF_PTE;
    FreshKeeps();
    GetNear(Fresh(), first, n);
    assert LowestRun(Fresh().t, first, n);
    hide Fresh, Permitted, Next, Inv;
  }

  /** Page k of the address space is at 4096 * k. */
  lemma AddressInNumbers(r: Run)
    ensures AddressOf(r) == 4096 * r.start
  {
  }
}
