/** The heap block as a list of chunks: first fit, split and coalescing on values, and what they keep. */
module Chunks {
  import opened MachineWords
  import opened ByteMemory

  const MIN_CHUNK: nat := 8

  datatype Chunk = Chunk(addr: nat, size: nat, taken: bool) {
    function Payload(): nat { addr + HEADER_SIZE }
    function End(): nat { addr + HEADER_SIZE + size }
    predicate Fits(n: nat) { !taken && n <= size }
    predicate Splits(n: nat) { n <= size && size - n > HEADER_SIZE + MIN_CHUNK }
  }

  /** The chunks cover `[start, end)` exactly, in address order and without gaps. */
  ghost predicate Tiled(cs: seq<Chunk>, start: nat, end: nat) {
    && 0 < |cs|
    && cs[0].addr == start
    && (forall i, j :: 0 <= i && j == i + 1 && j < |cs| ==> cs[i].End() == cs[j].addr)
    && cs[|cs| - 1].End() == end
  }

  ghost predicate NoAdjacentFree(cs: seq<Chunk>) {
    forall i, j :: 0 <= i && j == i + 1 && j < |cs| ==> cs[i].taken || cs[j].taken
  }

  ghost predicate WellFormed(cs: seq<Chunk>, start: nat, end: nat) {
    Tiled(cs, start, end) && NoAdjacentFree(cs)
  }

  /** The chunks that a caller holds a pointer to. */
  function Live(cs: seq<Chunk>): set<Chunk> {
    set c | c in cs && c.taken
  }

  function TotalSize(cs: seq<Chunk>): nat {
    if cs == [] then 0 else HEADER_SIZE + cs[0].size + TotalSize(cs[1..])
  }

  // ---------- First fit, split, coalesce ----------

  function FirstFit(cs: seq<Chunk>, n: nat, from: nat): (r: nat)
    requires from <= |cs|
    ensures from <= r <= |cs|
    ensures forall j :: from <= j < r ==> !cs[j].Fits(n)
    ensures r < |cs| ==> cs[r].Fits(n)
    decreases |cs| - from
  {
    if from == |cs| || cs[from].Fits(n) then from else FirstFit(cs, n, from + 1)
  }

  function AllocAt(cs: seq<Chunk>, i: nat, n: nat): seq<Chunk>
    requires i < |cs|
  {
    var c := cs[i];
    if c.Splits(n) then
      cs[..i] + [Chunk(c.addr, n, true), Chunk(c.addr + HEADER_SIZE + n, c.size - n - HEADER_SIZE, false)] + cs[i + 1..]
    else
      cs[i := c.(taken := true)]
  }

  function Allocate(cs: seq<Chunk>, n: nat): seq<Chunk> {
    var i := FirstFit(cs, n, 0);
    if i == |cs| then cs else AllocAt(cs, i, n)
  }

  /** The pointer handed out; 0 is NULL. */
  function Allocated(cs: seq<Chunk>, n: nat): nat {
    var i := FirstFit(cs, n, 0);
    if i == |cs| then 0 else cs[i].Payload()
  }

  /** The non-split branch writes the address after the chunk into `next`. For the last chunk that is
      the end of the block, which is NULL only when the block ends at the top of the address space. */
  ghost predicate AllocSafe(cs: seq<Chunk>, n: nat) {
    var i := FirstFit(cs, n, 0);
    i == |cs| - 1 ==> cs[i].Splits(n) || cs[i].End() == WORD_LIMIT
  }

  function MergeAt(cs: seq<Chunk>, i: nat): seq<Chunk>
    requires i + 1 < |cs|
  {
    cs[..i] + [cs[i].(size := cs[i].size + HEADER_SIZE + cs[i + 1].size)] + cs[i + 2..]
  }

  predicate FreeBlockAt(cs: seq<Chunk>, i: int) {
    0 <= i < |cs| && !cs[i].taken
  }

  function FreeAt(cs: seq<Chunk>, i: nat): seq<Chunk>
    requires i < |cs|
  {
    var released := cs[i := cs[i].(taken := false)];
    var right := if FreeBlockAt(cs, i + 1) then MergeAt(released, i) else released;
    if FreeBlockAt(cs, i - 1) then MergeAt(right, i - 1) else right
  }

  function IndexOf(cs: seq<Chunk>, p: nat): (i: nat)
    ensures i <= |cs|
    ensures i < |cs| ==> cs[i].Payload() == p
    ensures forall j :: 0 <= j < i ==> cs[j].Payload() != p
  {
    if cs == [] || cs[0].Payload() == p then 0 else 1 + IndexOf(cs[1..], p)
  }

  /** `p` was handed out and not yet freed. */
  predicate IsLive(cs: seq<Chunk>, p: nat) {
    var i := IndexOf(cs, p);
    i < |cs| && cs[i].taken
  }

  function Free(cs: seq<Chunk>, p: nat): seq<Chunk>
    requires IsLive(cs, p)
  {
    FreeAt(cs, IndexOf(cs, p))
  }

  // ---------- Geometry of a tiling ----------

  lemma {:induction false} Ordered(cs: seq<Chunk>, start: nat, end: nat, i: nat, j: nat)
    requires Tiled(cs, start, end)
    requires i < j < |cs|
    ensures cs[i].End() <= cs[j].addr
  {
    if i + 1 < j {
      Ordered(cs, start, end, i, j - 1);
    }
  }

  lemma {:induction false} Inside(cs: seq<Chunk>, start: nat, end: nat, i: nat)
    requires Tiled(cs, start, end)
    requires i < |cs|
    ensures start <= cs[i].addr && cs[i].End() <= end
  {
    if 0 < i {
      Ordered(cs, start, end, 0, i);
    }
    if i < |cs| - 1 {
      Ordered(cs, start, end, i, |cs| - 1);
    }
  }

  lemma Ends(cs: seq<Chunk>, start: nat, end: nat)
    requires Tiled(cs, start, end)
    ensures 0 < |cs| && cs[0].addr == start && cs[|cs| - 1].End() == end
  {
  }

  lemma AddressesDistinct(cs: seq<Chunk>, start: nat, end: nat, i: nat, j: nat)
    requires Tiled(cs, start, end)
    requires i < |cs| && j < |cs| && cs[i].addr == cs[j].addr
    ensures i == j
  {
    if i < j {
      Ordered(cs, start, end, i, j);
    } else if j < i {
      Ordered(cs, start, end, j, i);
    }
  }

  /** Live payloads are pairwise disjoint, inside the block, and overlap no header. */
  lemma PayloadsDisjoint(cs: seq<Chunk>, start: nat, end: nat, i: nat, j: nat)
    requires Tiled(cs, start, end)
    requires i < |cs| && j < |cs|
    ensures start < cs[i].Payload() <= cs[i].End() <= end
    ensures i != j ==> cs[i].End() <= cs[j].addr || cs[j].End() <= cs[i].addr
  {
    Inside(cs, start, end, i);
    if i < j {
      Ordered(cs, start, end, i, j);
    } else if j < i {
      Ordered(cs, start, end, j, i);
    }
  }

  /** Conservation: headers and payloads add up to the block size. */
  lemma {:induction false} SizesAddUp(cs: seq<Chunk>, start: nat, end: nat)
    requires Tiled(cs, start, end)
    ensures TotalSize(cs) == end - start
    decreases |cs|
  {
    if |cs| == 1 {
      assert cs[1..] == [];
    } else {
      SizesAddUp(cs[1..], cs[1].addr, end);
    }
  }

  // ---------- What allocation and release keep ----------

  lemma AllocateWellFormed(cs: seq<Chunk>, n: nat, start: nat, end: nat)
    requires WellFormed(cs, start, end)
    ensures WellFormed(Allocate(cs, n), start, end)
  {
    var i := FirstFit(cs, n, 0);
    if i < |cs| {
      AllocAtWellFormed(cs, i, n, start, end);
    }
  }

  /** The split list, chunk by chunk. */
  lemma SplitAt(cs: seq<Chunk>, i: nat, n: nat)
    requires i < |cs| && cs[i].Splits(n)
    ensures var r, c := AllocAt(cs, i, n), cs[i];
            && |r| == |cs| + 1
            && r[i] == Chunk(c.addr, n, true)
            && r[i + 1] == Chunk(c.addr + HEADER_SIZE + n, c.size - n - HEADER_SIZE, false)
            && (forall k :: 0 <= k < i ==> r[k] == cs[k])
            && (forall k :: i + 2 <= k < |r| ==> r[k] == cs[k - 1])
  {
    var head, r := cs[..i], AllocAt(cs, i, n);
    assert forall k :: 0 <= k < i ==> r[k] == head[k];
    assert r[i + 2..] == cs[i + 1..];
  }

  lemma SplitTiled(cs: seq<Chunk>, i: nat, n: nat, start: nat, end: nat)
    requires Tiled(cs, start, end) && i < |cs| && cs[i].Splits(n)
    ensures Tiled(AllocAt(cs, i, n), start, end)
  {
    hide AllocAt;
    SplitAt(cs, i, n);
    var r := AllocAt(cs, i, n);
    forall k, l | 0 <= k && l == k + 1 && l < |r|
      ensures r[k].End() == r[l].addr
    {
      if k < i {
        assert cs[k].End() == cs[l].addr;
      } else if k > i {
        assert k == i + 1 ==> cs[i].End() == cs[l - 1].addr;
      }
    }
  }

  lemma SplitSeparate(cs: seq<Chunk>, i: nat, n: nat)
    requires NoAdjacentFree(cs) && i < |cs| && cs[i].Fits(n) && cs[i].Splits(n)
    ensures NoAdjacentFree(AllocAt(cs, i, n))
  {
    hide AllocAt;
    SplitAt(cs, i, n);
    var r := AllocAt(cs, i, n);
    forall k, l | 0 <= k && l == k + 1 && l < |r|
      ensures r[k].taken || r[l].taken
    {
      if k < i - 1 {
        assert cs[k].taken || cs[l].taken;
      } else if k > i {
        assert cs[k - 1].taken || cs[l - 1].taken;
      }
    }
  }

  lemma AllocAtWellFormed(cs: seq<Chunk>, i: nat, n: nat, start: nat, end: nat)
    requires WellFormed(cs, start, end)
    requires i < |cs| && cs[i].Fits(n)
    ensures WellFormed(AllocAt(cs, i, n), start, end)
  {
    if cs[i].Splits(n) {
      hide AllocAt, Tiled, NoAdjacentFree;
      SplitTiled(cs, i, n, start, end);
      SplitSeparate(cs, i, n);
    }
  }

  lemma MergeTiled(cs: seq<Chunk>, i: nat, start: nat, end: nat)
    requires Tiled(cs, start, end)
    requires i + 1 < |cs|
    ensures Tiled(MergeAt(cs, i), start, end)
  {
  }

  /** Merging the only two free neighbours leaves no two free neighbours. */
  lemma MergeNoAdjacentFree(cs: seq<Chunk>, i: nat)
    requires i + 1 < |cs| && !cs[i].taken && !cs[i + 1].taken
    requires forall k, l :: 0 <= k && l == k + 1 && l < |cs| && k != i ==> cs[k].taken || cs[l].taken
    ensures NoAdjacentFree(MergeAt(cs, i))
  {
  }

  /** The release and the merge with the right neighbour; only the pair on the left may still be free. */
  lemma ReleaseMergedRight(cs: seq<Chunk>, i: nat, right: seq<Chunk>, start: nat, end: nat)
    requires WellFormed(cs, start, end)
    requires i < |cs| && cs[i].taken
    requires var released := cs[i := cs[i].(taken := false)];
             right == if FreeBlockAt(cs, i + 1) then MergeAt(released, i) else released
    ensures Tiled(right, start, end)
    ensures i < |right| && right[..i] == cs[..i] && !right[i].taken
    ensures forall k, l :: 0 <= k && l == k + 1 && l < |right| && k != i - 1 ==> right[k].taken || right[l].taken
  {
  }

  lemma FreeAtWellFormed(cs: seq<Chunk>, i: nat, start: nat, end: nat)
    requires WellFormed(cs, start, end)
    requires i < |cs| && cs[i].taken
    ensures WellFormed(FreeAt(cs, i), start, end)
  {
    var released := cs[i := cs[i].(taken := false)];
    var right := if FreeBlockAt(cs, i + 1) then MergeAt(released, i) else released;
    ReleaseMergedRight(cs, i, right, start, end);
    if i > 0 {
      assert right[i - 1] == right[..i][i - 1] == cs[i - 1];
    }
    if FreeBlockAt(cs, i - 1) {
      MergeTiled(right, i - 1, start, end);
      MergeNoAdjacentFree(right, i - 1);
    }
  }

  /** An allocation adds exactly one live chunk, which was not live before and is at most 24 bytes larger than
      asked for, and keeps the others. */
  lemma AllocateLive(cs: seq<Chunk>, n: nat, start: nat, end: nat)
    requires WellFormed(cs, start, end)
    ensures Allocated(cs, n) == 0 <==> forall c :: c in cs ==> !c.Fits(n)
    ensures Allocated(cs, n) == 0 ==> Allocate(cs, n) == cs
    ensures Allocated(cs, n) != 0 ==>
              exists c: Chunk :: c.addr + 16 == Allocated(cs, n) && n <= c.size <= n + 24 && c.taken
                        && (forall l :: l in Live(cs) ==> l.addr != c.addr)
                        && Live(Allocate(cs, n)) == Live(cs) + {c}
  {
    var i := FirstFit(cs, n, 0);
    if i < |cs| {
      var c := Chunk(cs[i].addr, if cs[i].Splits(n) then n else cs[i].size, true);
      AllocAtLive(cs, i, n);
      forall l | l in Live(cs)
        ensures l.addr != c.addr
      {
        var k :| 0 <= k < |cs| && cs[k] == l;
        if l.addr == c.addr {
          AddressesDistinct(cs, start, end, k, i);
        }
      }
    }
  }

  lemma AllocAtLive(cs: seq<Chunk>, i: nat, n: nat)
    requires i < |cs| && cs[i].Fits(n)
    ensures Live(AllocAt(cs, i, n)) == Live(cs) + {Chunk(cs[i].addr, if cs[i].Splits(n) then n else cs[i].size, true)}
  {
  }

  lemma MergeLive(cs: seq<Chunk>, i: nat)
    requires i + 1 < |cs| && !cs[i].taken && !cs[i + 1].taken
    ensures Live(MergeAt(cs, i)) == Live(cs)
  {
  }

  lemma ReleaseLive(cs: seq<Chunk>, i: nat, start: nat, end: nat)
    requires Tiled(cs, start, end)
    requires i < |cs| && cs[i].taken
    ensures Live(cs[i := cs[i].(taken := false)]) == Live(cs) - {cs[i]}
  {
    var released := cs[i := cs[i].(taken := false)];
    forall c | c in Live(cs) && c != cs[i]
      ensures c in Live(released)
    {
      var k :| 0 <= k < |cs| && cs[k] == c;
      assert released[k] == c;
    }
    forall c | c in Live(released)
      ensures c in Live(cs) && c != cs[i]
    {
      var k :| 0 <= k < |released| && released[k] == c;
      if c.addr == cs[i].addr {
        AddressesDistinct(cs, start, end, k, i);
      }
      assert cs[k] == c;
    }
  }

  /** A release removes exactly the released chunk from the live ones. */
  lemma FreeAtLive(cs: seq<Chunk>, i: nat, start: nat, end: nat)
    requires WellFormed(cs, start, end)
    requires i < |cs| && cs[i].taken
    ensures Live(FreeAt(cs, i)) == Live(cs) - {cs[i]}
  {
    var released := cs[i := cs[i].(taken := false)];
    ReleaseLive(cs, i, start, end);
    var right := if FreeBlockAt(cs, i + 1) then MergeAt(released, i) else released;
    if FreeBlockAt(cs, i + 1) {
      MergeLive(released, i);
    }
    if FreeBlockAt(cs, i - 1) {
      assert right[i - 1] == cs[i - 1];
      MergeLive(right, i - 1);
    }
  }

  /** Merging the two parts of a split gives the chunk back. */
  lemma MergeSplit(cs: seq<Chunk>, i: nat, n: nat)
    requires i < |cs| && cs[i].Splits(n) && !cs[i].taken
    ensures var r := AllocAt(cs, i, n);
            i + 1 < |r| && MergeAt(r[i := r[i].(taken := false)], i) == cs
  {
  }

  lemma AllocAtThenFreeAt(cs: seq<Chunk>, n: nat, start: nat, end: nat)
    requires WellFormed(cs, start, end)
    requires FirstFit(cs, n, 0) < |cs|
    ensures FirstFit(cs, n, 0) < |Allocate(cs, n)|
    ensures FreeAt(Allocate(cs, n), FirstFit(cs, n, 0)) == cs
  {
    var i := FirstFit(cs, n, 0);
    var r := AllocAt(cs, i, n);
    assert i > 0 ==> cs[i - 1].taken;
    assert i + 1 < |cs| ==> cs[i + 1].taken;
    hide WellFormed;
    if cs[i].Splits(n) {
      MergeSplit(cs, i, n);
      SplitAt(cs, i, n);
      hide AllocAt, MergeAt;
      assert FreeBlockAt(r, i + 1);
    } else {
      assert r[i := r[i].(taken := false)] == cs;
    }
  }

  /** With nothing live, coalescing has left the single chunk that `init` writes. */
  lemma NothingLiveIsInitial(cs: seq<Chunk>, start: nat, end: nat)
    requires WellFormed(cs, start, end)
    requires start + HEADER_SIZE <= end
    requires Live(cs) == {}
    ensures cs == [Chunk(start, end - start - HEADER_SIZE, false)]
  {
    assert |cs| > 1 ==> cs[0].taken || cs[1].taken;
    forall i | 0 <= i < |cs|
      ensures !cs[i].taken
    {
      assert cs[i] in cs && cs[i] !in Live(cs);
    }
  }

  // ---------- In numbers ----------

  /** A chunk is split exactly when it has more than 24 bytes to spare; what is cut off has more than 8 bytes. */
  lemma SplitInNumbers(cs: seq<Chunk>, i: nat, n: nat)
    requires i < |cs| && cs[i].Fits(n)
    ensures var r, c := AllocAt(cs, i, n), cs[i];
            && i < |r| && r[i].addr == c.addr && r[i].taken && n <= r[i].size <= n + 24
            && (|r| == |cs| + 1 <==> c.size > n + 24)
            && (|r| == |cs| <==> c.size <= n + 24)
            && (c.size > n + 24 ==>
                  r[i].size == n && r[i + 1] == Chunk(c.addr + 16 + n, c.size - n - 16, false) && r[i + 1].size > 8)
            && (c.size <= n + 24 ==> r[i].size == c.size)
  {
  }

  /** The guard of the runs: the last chunk is handed out only with more than 24 bytes to spare, or at the top of
      the address space. */
  lemma AllocSafeInNumbers(cs: seq<Chunk>, n: nat)
    requires cs != []
    ensures var i, last := FirstFit(cs, n, 0), |cs| - 1;
            AllocSafe(cs, n) <==>
            (i == last ==> cs[last].size > n + 24 || cs[last].addr + 16 + cs[last].size == 0x1_0000_0000)
  {
  }

  // ---------- The live chunks determine the block ----------

  /** A chunk that is live in the other list sits there at its own address. */
  lemma LiveIn(cs: seq<Chunk>, cs': seq<Chunk>, i: nat) returns (j: nat)
    requires Live(cs) == Live(cs') && i < |cs| && cs[i].taken
    ensures j < |cs'| && cs'[j] == cs[i]
  {
    assert cs[i] in Live(cs');
    j :| 0 <= j < |cs'| && cs'[j] == cs[i];
  }

  /** A live first chunk is the first chunk of the other list too. */
  lemma FirstTaken(cs: seq<Chunk>, cs': seq<Chunk>, start: nat, end: nat)
    requires Tiled(cs, start, end) && Tiled(cs', start, end) && Live(cs) == Live(cs') && cs[0].taken
    ensures cs'[0] == cs[0]
  {
    var j := LiveIn(cs, cs', 0);
    AddressesDistinct(cs', start, end, j, 0);
  }

  /** Behind a free first chunk of `cs` comes a live one, which `cs'` has no earlier than its second chunk. */
  lemma SecondNotLater(cs: seq<Chunk>, cs': seq<Chunk>, start: nat, end: nat)
    requires WellFormed(cs, start, end) && WellFormed(cs', start, end) && Live(cs) == Live(cs')
    requires !cs[0].taken && !cs'[0].taken && 1 < |cs|
    ensures 1 < |cs'| && cs'[1].addr <= cs[1].addr
  {
    assert cs[1].taken;
    var j := LiveIn(cs, cs', 1);
    assert j != 0;
    if j > 1 {
      Ordered(cs', start, end, 1, j);
    }
  }

  lemma SameFirst(cs: seq<Chunk>, cs': seq<Chunk>, start: nat, end: nat)
    requires WellFormed(cs, start, end) && WellFormed(cs', start, end) && Live(cs) == Live(cs')
    ensures cs[0] == cs'[0]
  {
    if cs[0].taken {
      FirstTaken(cs, cs', start, end);
    } else if cs'[0].taken {
      FirstTaken(cs', cs, start, end);
    } else if 1 < |cs| {
      SecondNotLater(cs, cs', start, end);
      SecondNotLater(cs', cs, start, end);
    } else if 1 < |cs'| {
      SecondNotLater(cs', cs, start, end);
    }
  }

  lemma LiveTail(cs: seq<Chunk>, start: nat, end: nat)
    requires Tiled(cs, start, end)
    ensures Live(cs[1..]) == Live(cs) - {cs[0]}
  {
    forall c | c in Live(cs[1..])
      ensures c in Live(cs) && c != cs[0]
    {
      var k :| 0 <= k < |cs[1..]| && cs[1..][k] == c;
      assert cs[k + 1] == c;
      Ordered(cs, start, end, 0, k + 1);
    }
    forall c | c in Live(cs) && c != cs[0]
      ensures c in Live(cs[1..])
    {
      var k :| 0 <= k < |cs| && cs[k] == c;
      assert cs[1..][k - 1] == c;
    }
  }

  lemma TailWellFormed(cs: seq<Chunk>, start: nat, end: nat)
    requires WellFormed(cs, start, end) && 1 < |cs|
    ensures WellFormed(cs[1..], cs[0].End(), end)
  {
  }

  /** There is one well-formed list for each set of live chunks: where the free chunks are is never a choice. */
  lemma {:induction false} LiveDetermines(cs: seq<Chunk>, cs': seq<Chunk>, start: nat, end: nat)
    requires WellFormed(cs, start, end) && WellFormed(cs', start, end) && Live(cs) == Live(cs')
    ensures cs == cs'
    decreases |cs|
  {
    SameFirst(cs, cs', start, end);
    if 1 < |cs| && 1 < |cs'| {
      TailWellFormed(cs, start, end);
      TailWellFormed(cs', start, end);
      LiveTail(cs, start, end);
      LiveTail(cs', start, end);
      LiveDetermines(cs[1..], cs'[1..], cs[0].End(), end);
      assert cs == [cs[0]] + cs[1..] && cs' == [cs'[0]] + cs'[1..];
    } else if 1 < |cs| {
      Inside(cs, start, end, 1);
    } else if 1 < |cs'| {
      Inside(cs', start, end, 1);
    }
  }
}
