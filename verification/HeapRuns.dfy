/** Whole runs of `allocate` and `free` on one heap block. */
module HeapRuns {
  import opened MachineWords
  import opened ByteMemory
  import opened Chunks

  /** Between the calls of `allocate` and `free`, callers store bytes behind the pointers they hold. */
  datatype Request = Alloc(bytes: nat) | Release(p: nat) | Store(p: nat, offset: nat, value: Byte)

  /** The run alphabet: the last chunk is handed out only by splitting it; only live pointers are freed; stores
      stay inside a live payload. */
  ghost predicate Allowed(cs: seq<Chunk>, request: Request) {
    match request
    case Alloc(n) => AllocSafe(cs, n)
    case Release(p) => IsLive(cs, p)
    case Store(p, offset, _) => IsLive(cs, p) && offset < cs[IndexOf(cs, p)].size
  }

  function Step(cs: seq<Chunk>, request: Request): seq<Chunk>
    requires request.Release? ==> IsLive(cs, request.p)
  {
    match request
    case Alloc(n) => Allocate(cs, n)
    case Release(p) => Free(cs, p)
    case Store(_, _, _) => cs
  }

  /** What the caller is given. */
  function Answer(cs: seq<Chunk>, request: Request): nat {
    if request.Alloc? then Allocated(cs, request.bytes) else 0
  }

  /** What the callers hold: results of successful allocations that they have not freed. */
  function HeldAfter(held: set<nat>, cs: seq<Chunk>, request: Request): set<nat> {
    match request
    case Alloc(n) => if Allocated(cs, n) == 0 then held else held + {Allocated(cs, n)}
    case Release(p) => held - {p}
    case Store(_, _, _) => held
  }

  ghost predicate RunAllowed(cs: seq<Chunk>, requests: seq<Request>)
    decreases |requests|
  {
    requests == [] || (Allowed(cs, requests[0]) && RunAllowed(Step(cs, requests[0]), requests[1..]))
  }

  ghost function Run(cs: seq<Chunk>, requests: seq<Request>): seq<Chunk>
    requires RunAllowed(cs, requests)
    decreases |requests|
  {
    if requests == [] then cs else Run(Step(cs, requests[0]), requests[1..])
  }

  ghost function Answers(cs: seq<Chunk>, requests: seq<Request>): seq<nat>
    requires RunAllowed(cs, requests)
    decreases |requests|
  {
    if requests == [] then [] else [Answer(cs, requests[0])] + Answers(Step(cs, requests[0]), requests[1..])
  }

  ghost function Held(held: set<nat>, cs: seq<Chunk>, requests: seq<Request>): set<nat>
    requires RunAllowed(cs, requests)
    decreases |requests|
  {
    if requests == [] then held
    else Held(HeldAfter(held, cs, requests[0]), Step(cs, requests[0]), requests[1..])
  }

  /** The payload addresses of the live chunks. */
  function Pointers(cs: seq<Chunk>): set<nat> {
    set c | c in Live(cs) :: c.Payload()
  }

  lemma LivePointer(cs: seq<Chunk>, p: nat, start: nat, end: nat)
    requires Tiled(cs, start, end)
    ensures IsLive(cs, p) <==> p in Pointers(cs)
  {
    if p in Pointers(cs) {
      var c :| c in Live(cs) && c.Payload() == p;
      var k :| 0 <= k < |cs| && cs[k] == c;
      AddressesDistinct(cs, start, end, k, IndexOf(cs, p));
    }
  }

  /** One step keeps the block well formed, and the live pointers are the ones the callers hold. */
  lemma StepKeeps(cs: seq<Chunk>, request: Request, start: nat, end: nat)
    requires WellFormed(cs, start, end) && Allowed(cs, request)
    ensures WellFormed(Step(cs, request), start, end)
    ensures Pointers(Step(cs, request)) == HeldAfter(Pointers(cs), cs, request)
    ensures request.Alloc? ==> (Answer(cs, request) == 0 <==> forall c :: c in cs ==> c.taken || c.size < request.bytes)
    ensures request.Alloc? && Answer(cs, request) != 0 ==>
              Answer(cs, request) !in Pointers(cs) && Pointers(Step(cs, request)) == Pointers(cs) + {Answer(cs, request)}
  {
    match request
    case Alloc(n) =>
      AllocateWellFormed(cs, n, start, end);
      AllocateLive(cs, n, start, end);
      PointersOfAllocate(cs, n, start, end);
    case Release(p) =>
      var i := IndexOf(cs, p);
      FreeAtWellFormed(cs, i, start, end);
      FreeAtLive(cs, i, start, end);
      PointersOfFree(cs, p, start, end);
    case Store(_, _, _) =>
  }

  lemma PointersOfAllocate(cs: seq<Chunk>, n: nat, start: nat, end: nat)
    requires WellFormed(cs, start, end)
    ensures Pointers(Allocate(cs, n)) == HeldAfter(Pointers(cs), cs, Alloc(n))
    ensures Allocated(cs, n) !in Pointers(cs)
  {
    AllocateLive(cs, n, start, end);
    if Allocated(cs, n) != 0 {
      var c: Chunk :| c.Payload() == Allocated(cs, n) && c.taken && (forall l :: l in Live(cs) ==> l.addr != c.addr)
                      && Live(Allocate(cs, n)) == Live(cs) + {c};
      assert Pointers(Allocate(cs, n)) == Pointers(cs) + {c.Payload()};
    }
  }

  lemma PointersOfFree(cs: seq<Chunk>, p: nat, start: nat, end: nat)
    requires WellFormed(cs, start, end) && IsLive(cs, p)
    ensures Pointers(Free(cs, p)) == Pointers(cs) - {p}
  {
    var i := IndexOf(cs, p);
    FreeAtLive(cs, i, start, end);
    forall c | c in Live(cs) && c.Payload() == p
      ensures c == cs[i]
    {
      var k :| 0 <= k < |cs| && cs[k] == c;
      AddressesDistinct(cs, start, end, k, i);
    }
  }

  /** Every allowed run keeps the tiling, the total size, the separation of free chunks, and hands out
      pointers that stay exactly the callers' own. */
  lemma {:induction false} RunKeepsBlock(cs: seq<Chunk>, requests: seq<Request>, start: nat, end: nat)
    requires WellFormed(cs, start, end) && RunAllowed(cs, requests)
    ensures WellFormed(Run(cs, requests), start, end)
    ensures TotalSize(Run(cs, requests)) == end - start
    ensures Pointers(Run(cs, requests)) == Held(Pointers(cs), cs, requests)
    decreases |requests|
  {
    if requests == [] {
      SizesAddUp(cs, start, end);
    } else {
      StepKeeps(cs, requests[0], start, end);
      RunKeepsBlock(Step(cs, requests[0]), requests[1..], start, end);
    }
  }

  function Releases(ps: seq<nat>): seq<Request> {
    seq(|ps|, k requires 0 <= k < |ps| => Release(ps[k]))
  }

  lemma NoPointersNothingLive(cs: seq<Chunk>)
    requires Pointers(cs) == {}
    ensures Live(cs) == {}
  {
    assert forall c :: c in Live(cs) ==> c.Payload() in Pointers(cs);
  }

  /** Freeing all live pointers, in any order, gives back the single chunk that `init` wrote. */
  lemma {:induction false} FreeAllInAnyOrder(cs: seq<Chunk>, ps: seq<nat>, start: nat, end: nat)
    requires WellFormed(cs, start, end) && start + HEADER_SIZE <= end
    requires forall i, j :: 0 <= i < j < |ps| ==> ps[i] != ps[j]
    requires Pointers(cs) == set p | p in ps
    ensures RunAllowed(cs, Releases(ps))
    ensures Run(cs, Releases(ps)) == [Chunk(start, end - start - HEADER_SIZE, false)]
    decreases |ps|
  {
    hide Live, Pointers, Tiled, NoAdjacentFree, IsLive;
    if ps == [] {
      NoPointersNothingLive(cs);
      NothingLiveIsInitial(cs, start, end);
    } else {
      var p, rest := ps[0], ps[1..];
      assert Releases(ps)[1..] == Releases(rest);
      LivePointer(cs, p, start, end);
      StepKeeps(cs, Release(p), start, end);
      assert (set q | q in rest) == Pointers(cs) - {p} by {
        assert forall q :: q in ps <==> q == p || q in rest;
      }
      FreeAllInAnyOrder(Free(cs, p), rest, start, end);
    }
  }

  /** `allocate(n)` followed by `free` of its result gives back the very same chunk list. */
  lemma AllocateThenFreeRestores(cs: seq<Chunk>, n: nat, start: nat, end: nat)
    requires WellFormed(cs, start, end) && Allocated(cs, n) != 0
    ensures IsLive(Allocate(cs, n), Allocated(cs, n))
    ensures Free(Allocate(cs, n), Allocated(cs, n)) == cs
  {
    var i, r := FirstFit(cs, n, 0), Allocate(cs, n);
    AllocateWellFormed(cs, n, start, end);
    AllocAtThenFreeAt(cs, n, start, end);
    assert r[i].Payload() == Allocated(cs, n) && r[i].taken;
    AddressesDistinct(r, start, end, i, IndexOf(r, Allocated(cs, n)));
  }

  /** Taking a whole one-page block leaves the alphabet: the last chunk does not split. */
  lemma WholePageIsUnsafe()
    ensures var cs := [Chunk(0xC200_0000, 4096 - HEADER_SIZE, false)];
            WellFormed(cs, 0xC200_0000, 0xC200_1000) && !AllocSafe(cs, 4096 - HEADER_SIZE)
  {
  }
}
