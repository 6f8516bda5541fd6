/** `memory::Block`: first-fit allocation over headers kept inside the managed bytes. */
module HeapBlock {
  import opened MachineWords
  import opened ByteMemory
  import opened Chunks

  /** The header that the doubly linked list must hold for chunk `i`. */
  function HeaderOf(cs: seq<Chunk>, i: nat): Header
    requires i < |cs|
  {
    Header(cs[i].size,
           if i == 0 then 0 else cs[i - 1].addr,
           if i == |cs| - 1 then 0 else cs[i + 1].addr,
           Flag(cs[i].taken))
  }

  ghost predicate Linked(m: seq<Byte>, cs: seq<Chunk>) {
    forall i {:trigger HeaderOf(cs, i)} :: 0 <= i < |cs| ==>
      cs[i].addr + HEADER_SIZE <= |m| && HeaderAt(m, cs[i].addr) == HeaderOf(cs, i)
  }

  /** Memory `m` holds the chunk list `cs` in `[start, end)`, tiled and fully linked. */
  ghost predicate Holds(m: seq<Byte>, cs: seq<Chunk>, start: nat, end: nat) {
    && 0 < start
    && end <= |m| && end <= WORD_LIMIT
    && Tiled(cs, start, end)
    && Linked(m, cs)
  }

  /** The bytes handed out with these chunks are untouched, and so is everything outside the block. */
  ghost predicate PayloadsKept(m: seq<Byte>, m': seq<Byte>, held: set<Chunk>, start: nat, end: nat) {
    && |m'| == |m|
    && (forall k :: 0 <= k < |m| && !(start <= k < end) ==> m'[k] == m[k])
    && (forall c, k :: c in held && c.Payload() <= k < c.End() && k < |m| ==> m'[k] == m[k])
  }

  lemma ReadHeader(m: seq<Byte>, cs: seq<Chunk>, start: nat, end: nat, i: nat)
    requires Holds(m, cs, start, end)
    requires i < |cs|
    ensures start <= cs[i].addr && cs[i].End() <= end
    ensures HeaderAt(m, cs[i].addr) == HeaderOf(cs, i)
    ensures HeaderOf(cs, i).Encodable()
  {
    Inside(cs, start, end, i);
  }

  // ---------- The header writes of split and merge ----------

  lemma SameHeaders(m: seq<Byte>, m': seq<Byte>, a: nat, cs: seq<Chunk>, start: nat, end: nat, i: nat, k: nat)
    requires Tiled(cs, start, end) && end <= |m|
    requires i < |cs| && cs[i].addr <= a && a + HEADER_SIZE <= cs[i].End()
    requires |m'| == |m| && SameOutside(m, m', a)
    requires k < |cs| && k != i
    ensures cs[k].addr + HEADER_SIZE <= |m| && HeaderAt(m', cs[k].addr) == HeaderAt(m, cs[k].addr)
  {
    PayloadsDisjoint(cs, start, end, k, i);
    OtherHeaderKept(m, m', a, cs[k].addr);
  }

  /** A write inside chunk `i` (its header, or its payload while nobody holds it) spares the payloads of others. */
  lemma WriteSparesPayloads(m: seq<Byte>, m': seq<Byte>, a: nat, cs: seq<Chunk>, start: nat, end: nat, i: nat, held: set<Chunk>)
    requires Tiled(cs, start, end) && end <= |m|
    requires i < |cs| && cs[i].addr <= a && a + HEADER_SIZE <= cs[i].End()
    requires |m'| == |m| && SameOutside(m, m', a)
    requires forall c :: c in held ==> c in cs && (c.addr == cs[i].addr ==> a == cs[i].addr)
    ensures PayloadsKept(m, m', held, start, end)
  {
    Inside(cs, start, end, i);
    forall c, k | c in held && c.Payload() <= k < c.End() && k < |m|
      ensures m'[k] == m[k]
    {
      var j :| 0 <= j < |cs| && cs[j] == c;
      PayloadsDisjoint(cs, start, end, j, i);
    }
  }

  lemma NothingWritten(m: seq<Byte>, held: set<Chunk>, start: nat, end: nat)
    ensures PayloadsKept(m, m, held, start, end)
  {
  }

  lemma KeptTransitive(m: seq<Byte>, m': seq<Byte>, m'': seq<Byte>, held: set<Chunk>, start: nat, end: nat)
    requires PayloadsKept(m, m', held, start, end)
    requires exists more: set<Chunk> :: held <= more && PayloadsKept(m', m'', more, start, end)
    ensures PayloadsKept(m, m'', held, start, end)
  {
  }

  /** The three header writes of a split: the new second chunk, the back link of the third, the first. */
  ghost predicate SplitWrites(m: seq<Byte>, m1: seq<Byte>, m2: seq<Byte>, m3: seq<Byte>, cs: seq<Chunk>, i: nat, n: nat)
    requires i < |cs| && cs[i].Splits(n)
  {
    var second, h := cs[i].addr + HEADER_SIZE + n, HeaderOf(cs, i);
    && HeaderWritten(m, m1, second, Header(cs[i].size - n - HEADER_SIZE, cs[i].addr, h.next, Flag(false)))
    && (if i + 1 < |cs| then
          HeaderWritten(m1, m2, cs[i + 1].addr, HeaderOf(cs, i + 1).(prev := second))
        else m2 == m1)
    && HeaderWritten(m2, m3, cs[i].addr, Header(n, h.prev, second, Flag(true)))
  }

  lemma SplitHeader(m: seq<Byte>, m1: seq<Byte>, m2: seq<Byte>, m3: seq<Byte>,
                    cs: seq<Chunk>, i: nat, n: nat, start: nat, end: nat, j: nat)
    requires Holds(m, cs, start, end)
    requires i < |cs| && cs[i].Splits(n)
    requires SplitWrites(m, m1, m2, m3, cs, i, n)
    requires j < |cs| && j != i
    ensures cs[j].addr + HEADER_SIZE <= |m3|
    ensures HeaderAt(m3, cs[j].addr)
            == if j == i + 1 then HeaderOf(cs, j).(prev := cs[i].addr + HEADER_SIZE + n) else HeaderOf(cs, j)
  {
    hide HeaderAt;
    ReadHeader(m, cs, start, end, j);
    SameHeaders(m, m1, cs[i].addr + HEADER_SIZE + n, cs, start, end, i, j);
    SameHeaders(m2, m3, cs[i].addr, cs, start, end, i, j);
    if i + 1 < |cs| && j != i + 1 {
      SameHeaders(m1, m2, cs[i + 1].addr, cs, start, end, i + 1, j);
    }
  }

  lemma SplitLink(m: seq<Byte>, m1: seq<Byte>, m2: seq<Byte>, m3: seq<Byte>,
                  cs: seq<Chunk>, i: nat, n: nat, start: nat, end: nat, r: seq<Chunk>, k: nat)
    requires Holds(m, cs, start, end)
    requires i < |cs| && cs[i].Splits(n)
    requires SplitWrites(m, m1, m2, m3, cs, i, n)
    requires r == AllocAt(cs, i, n)
    requires k < |r|
    ensures r[k].addr + HEADER_SIZE <= |m3| && HeaderAt(m3, r[k].addr) == HeaderOf(r, k)
  {
    hide HeaderAt, Linked;
    var second := cs[i].addr + HEADER_SIZE + n;
    if k == i + 1 {
      Inside(cs, start, end, i);
      OtherHeaderKept(m2, m3, cs[i].addr, second);
      if i + 1 < |cs| {
        OtherHeaderKept(m1, m2, cs[i + 1].addr, second);
      }
    } else if k != i {
      SplitHeader(m, m1, m2, m3, cs, i, n, start, end, if k < i then k else k - 1);
    }
  }

  /** Split turns a memory that holds `cs` into one that holds the split list. */
  lemma SplitHolds(m: seq<Byte>, m1: seq<Byte>, m2: seq<Byte>, m3: seq<Byte>,
                   cs: seq<Chunk>, i: nat, n: nat, start: nat, end: nat)
    requires Holds(m, cs, start, end)
    requires i < |cs| && cs[i].Splits(n)
    requires SplitWrites(m, m1, m2, m3, cs, i, n)
    requires Tiled(AllocAt(cs, i, n), start, end)
    ensures Holds(m3, AllocAt(cs, i, n), start, end)
  {
    hide HeaderAt, HeaderOf, Tiled, AllocAt;
    var r := AllocAt(cs, i, n);
    forall k | 0 <= k < |r|
      ensures r[k].addr + HEADER_SIZE <= |m3| && HeaderAt(m3, r[k].addr) == HeaderOf(r, k)
    {
      SplitLink(m, m1, m2, m3, cs, i, n, start, end, r, k);
    }
  }

  /** A split writes no byte of a payload that somebody holds. */
  lemma SplitSpares(m: seq<Byte>, m1: seq<Byte>, m2: seq<Byte>, m3: seq<Byte>,
                    cs: seq<Chunk>, i: nat, n: nat, start: nat, end: nat)
    requires Holds(m, cs, start, end)
    requires i < |cs| && cs[i].Splits(n) && !cs[i].taken
    requires SplitWrites(m, m1, m2, m3, cs, i, n)
    ensures PayloadsKept(m, m3, Live(cs), start, end)
  {
    hide HeaderAt, Linked, PayloadsKept;
    var held := Live(cs);
    forall c | c in held
      ensures c in cs && c.addr != cs[i].addr
    {
      var k :| 0 <= k < |cs| && cs[k] == c;
      if c.addr == cs[i].addr {
        AddressesDistinct(cs, start, end, k, i);
      }
    }
    WriteSparesPayloads(m, m1, cs[i].addr + HEADER_SIZE + n, cs, start, end, i, held);
    if i + 1 < |cs| {
      WriteSparesPayloads(m1, m2, cs[i + 1].addr, cs, start, end, i + 1, held);
      KeptTransitive(m, m1, m2, held, start, end);
    }
    WriteSparesPayloads(m2, m3, cs[i].addr, cs, start, end, i, held);
    KeptTransitive(m, m2, m3, held, start, end);
  }

  lemma TakeLink(m: seq<Byte>, m': seq<Byte>, cs: seq<Chunk>, i: nat, taken: bool, start: nat, end: nat, k: nat)
    requires Holds(m, cs, start, end)
    requires i < |cs|
    requires HeaderWritten(m, m', cs[i].addr, HeaderOf(cs, i).(taken := Flag(taken)))
    requires k < |cs|
    ensures cs[k].addr + HEADER_SIZE <= |m'|
    ensures HeaderAt(m', cs[k].addr) == HeaderOf(cs[i := cs[i].(taken := taken)], k)
  {
    hide HeaderAt, Linked, Tiled;
    ReadHeader(m, cs, start, end, k);
    if k != i {
      SameHeaders(m, m', cs[i].addr, cs, start, end, i, k);
    }
  }

  lemma TakeHolds(m: seq<Byte>, m': seq<Byte>, cs: seq<Chunk>, i: nat, taken: bool, start: nat, end: nat)
    requires Holds(m, cs, start, end)
    requires i < |cs|
    requires HeaderWritten(m, m', cs[i].addr, HeaderOf(cs, i).(taken := Flag(taken)))
    ensures Holds(m', cs[i := cs[i].(taken := taken)], start, end)
  {
    hide HeaderAt, HeaderOf, SameOutside;
    var r := cs[i := cs[i].(taken := taken)];
    assert Tiled(r, start, end);
    forall k | 0 <= k < |r|
      ensures r[k].addr + HEADER_SIZE <= |m'| && HeaderAt(m', r[k].addr) == HeaderOf(r, k)
    {
      TakeLink(m, m', cs, i, taken, start, end, k);
    }
  }

  /** The header writes of a merge: size and next of the first, the back link of the third. */
  ghost predicate MergeWrites(m: seq<Byte>, m1: seq<Byte>, m2: seq<Byte>, m3: seq<Byte>, cs: seq<Chunk>, i: nat)
    requires i + 1 < |cs|
  {
    var h := HeaderOf(cs, i).(size := cs[i].size + HEADER_SIZE + cs[i + 1].size);
    && HeaderWritten(m, m1, cs[i].addr, h)
    && HeaderWritten(m1, m2, cs[i].addr, h.(next := HeaderOf(cs, i + 1).next))
    && if i + 2 < |cs| then
         HeaderWritten(m2, m3, cs[i + 2].addr, HeaderOf(cs, i + 2).(prev := cs[i].addr))
       else m3 == m2
  }

  lemma MergeHeader(m: seq<Byte>, m1: seq<Byte>, m2: seq<Byte>, m3: seq<Byte>,
                    cs: seq<Chunk>, i: nat, start: nat, end: nat, j: nat)
    requires Holds(m, cs, start, end)
    requires i + 1 < |cs| && MergeWrites(m, m1, m2, m3, cs, i)
    requires j < |cs| && j != i + 1
    ensures cs[j].addr + HEADER_SIZE <= |m3|
    ensures HeaderAt(m3, cs[j].addr)
            == if j == i then
                 HeaderOf(cs, i).(size := cs[i].size + HEADER_SIZE + cs[i + 1].size, next := HeaderOf(cs, i + 1).next)
               else if j == i + 2 then HeaderOf(cs, j).(prev := cs[i].addr) else HeaderOf(cs, j)
  {
    hide HeaderAt;
    ReadHeader(m, cs, start, end, j);
    if j != i {
      SameHeaders(m, m1, cs[i].addr, cs, start, end, i, j);
      SameHeaders(m1, m2, cs[i].addr, cs, start, end, i, j);
    }
    if i + 2 < |cs| && j != i + 2 {
      SameHeaders(m2, m3, cs[i + 2].addr, cs, start, end, i + 2, j);
    }
  }

  lemma MergeLink(m: seq<Byte>, m1: seq<Byte>, m2: seq<Byte>, m3: seq<Byte>,
                  cs: seq<Chunk>, i: nat, start: nat, end: nat, r: seq<Chunk>, k: nat)
    requires Holds(m, cs, start, end)
    requires i + 1 < |cs| && MergeWrites(m, m1, m2, m3, cs, i)
    requires r == MergeAt(cs, i)
    requires k < |r|
    ensures r[k].addr + HEADER_SIZE <= |m3| && HeaderAt(m3, r[k].addr) == HeaderOf(r, k)
  {
    hide HeaderAt, Tiled, Linked;
    MergeHeader(m, m1, m2, m3, cs, i, start, end, if k <= i then k else k + 1);
  }

  lemma MergeHolds(m: seq<Byte>, m1: seq<Byte>, m2: seq<Byte>, m3: seq<Byte>,
                   cs: seq<Chunk>, i: nat, start: nat, end: nat)
    requires Holds(m, cs, start, end)
    requires i + 1 < |cs| && MergeWrites(m, m1, m2, m3, cs, i)
    ensures Holds(m3, MergeAt(cs, i), start, end)
  {
    hide HeaderAt, HeaderOf, Tiled, MergeAt;
    MergeTiled(cs, i, start, end);
    var r := MergeAt(cs, i);
    forall k | 0 <= k < |r|
      ensures r[k].addr + HEADER_SIZE <= |m3| && HeaderAt(m3, r[k].addr) == HeaderOf(r, k)
    {
      MergeLink(m, m1, m2, m3, cs, i, start, end, r, k);
    }
  }

  /** A merge writes header bytes only, so it spares every payload. */
  lemma MergeSpares(m: seq<Byte>, m1: seq<Byte>, m2: seq<Byte>, m3: seq<Byte>,
                    cs: seq<Chunk>, i: nat, start: nat, end: nat, held: set<Chunk>)
    requires Holds(m, cs, start, end)
    requires i + 1 < |cs| && MergeWrites(m, m1, m2, m3, cs, i)
    requires forall c :: c in held ==> c in cs
    ensures PayloadsKept(m, m3, held, start, end)
  {
    hide HeaderAt, Linked, PayloadsKept;
    WriteSparesPayloads(m, m1, cs[i].addr, cs, start, end, i, held);
    WriteSparesPayloads(m1, m2, cs[i].addr, cs, start, end, i, held);
    KeptTransitive(m, m1, m2, held, start, end);
    if i + 2 < |cs| {
      WriteSparesPayloads(m2, m3, cs[i + 2].addr, cs, start, end, i + 2, held);
      KeptTransitive(m, m2, m3, held, start, end);
    }
  }

  lemma ReleaseSpares(m: seq<Byte>, m': seq<Byte>, cs: seq<Chunk>, i: nat, start: nat, end: nat)
    requires Holds(m, cs, start, end)
    requires i < |cs| && cs[i].taken
    requires |m'| == |m| && SameOutside(m, m', cs[i].addr)
    ensures PayloadsKept(m, m', Live(cs[i := cs[i].(taken := false)]), start, end)
  {
    ReleaseLive(cs, i, start, end);
    WriteSparesPayloads(m, m', cs[i].addr, cs, start, end, i, Live(cs));
  }

  lemma KeptThroughMerge(m: seq<Byte>, m1: seq<Byte>, m2: seq<Byte>, cs: seq<Chunk>, i: nat, start: nat, end: nat)
    requires PayloadsKept(m, m1, Live(cs), start, end) && PayloadsKept(m1, m2, (set c | c in cs), start, end)
    requires i + 1 < |cs| && !cs[i].taken && !cs[i + 1].taken
    ensures PayloadsKept(m, m2, Live(MergeAt(cs, i)), start, end)
  {
  }

  // ---------- The memory determines the list ----------

  /** Two lists that read the same sizes along the block are the same list of addresses. */
  lemma {:induction false} SameWalk(cs: seq<Chunk>, cs': seq<Chunk>, start: nat, end: nat, i: nat)
    requires Tiled(cs, start, end) && Tiled(cs', start, end)
    requires forall k, j :: 0 <= k < |cs| && 0 <= j < |cs'| && cs[k].addr == cs'[j].addr ==> cs[k].size == cs'[j].size
    requires i < |cs|
    ensures i < |cs'| && cs'[i].addr == cs[i].addr
  {
    if i > 0 {
      SameWalk(cs, cs', start, end, i - 1);
      Ordered(cs, start, end, i - 1, i);
      Inside(cs, start, end, i);
      assert cs'[i - 1].End() == cs[i - 1].End() < end;
    }
  }

  /** Once the last header points past the block, no well-formed list describes the memory. */
  lemma BrokenTail(m: seq<Byte>, m': seq<Byte>, cs: seq<Chunk>, cs': seq<Chunk>, start: nat, end: nat, h: Header)
    requires Holds(m, cs, start, end)
    requires var last := |cs| - 1;
             HeaderWritten(m, m', cs[last].addr, h) && h.size == cs[last].size && h.next != 0
    ensures !Holds(m', cs', start, end)
  {
    hide HeaderAt, Linked;
    var last := |cs| - 1;
    if Holds(m', cs', start, end) {
      forall k, j | 0 <= k < |cs| && 0 <= j < |cs'| && cs[k].addr == cs'[j].addr
        ensures cs[k].size == cs'[j].size
      {
        ReadHeader(m, cs, start, end, k);
        ReadHeader(m', cs', start, end, j);
        if k != last {
          SameHeaders(m, m', cs[last].addr, cs, start, end, last, k);
        }
      }
      SameWalk(cs, cs', start, end, last);
      SameWalk(cs', cs, start, end, |cs'| - 1);
      ReadHeader(m', cs', start, end, last);
      assert false;
    }
  }

  class Block {
    const ram: array<Byte>
    var start: nat
    var chunkList: nat
    var blockSize: nat
    ghost var chunks: seq<Chunk>

    /** The block is in order: headers linked, chunks tiling it, no two free neighbours. */
    ghost predicate Valid()
      reads this, ram
    {
      && chunkList == start
      && Holds(ram[..], chunks, start, start + blockSize)
      && NoAdjacentFree(chunks)
    }

    /** Some tiled, linked chunk list is in memory. */
    ghost predicate InOrder()
      reads this, ram
    {
      var m, end := ram[..], start + blockSize;
      exists cs :: Holds(m, cs, start, end)
    }

    constructor (ram: array<Byte>, addr: nat, size: nat)
      requires 0 < addr && HEADER_SIZE <= size && addr + size <= WORD_LIMIT && addr + size <= ram.Length
      modifies ram
      ensures this.ram == ram && start == addr && blockSize == size
      ensures Valid() && chunks == [Chunk(addr, size - HEADER_SIZE, false)]
      ensures forall k :: 0 <= k < ram.Length && !(addr <= k < addr + HEADER_SIZE) ==> ram[k] == old(ram[k])
    {
      this.ram := ram;
      start, chunkList, blockSize := addr, addr, size;
      chunks := [Chunk(addr, size - HEADER_SIZE, false)];
      new;
      StoreHeader(ram, addr, Header(size - HEADER_SIZE, 0, 0, Flag(false)));
    }

    /** Follows the sizes from chunk `i`; past the last chunk this is the end of the block, modulo 2^32. */
    method Jump(from: nat, steps: nat, ghost i: nat) returns (curr: nat)
      requires Holds(ram[..], chunks, start, start + blockSize)
      requires i < |chunks| && from == chunks[i].addr && i + steps <= |chunks|
      ensures curr == if i + steps < |chunks| then chunks[i + steps].addr else (start + blockSize) % WORD_LIMIT
    {
      hide HeaderAt;
      curr := from;
      var left := steps;
      ghost var k, end := i, start + blockSize;
      while curr != 0 && left != 0
        invariant i <= k <= |chunks| && k + left == i + steps
        invariant curr == if k < |chunks| then chunks[k].addr else end % WORD_LIMIT
        decreases left
      {
        ReadHeader(ram[..], chunks, start, end, k);
        if k + 1 < |chunks| {
          Inside(chunks, start, end, k + 1);
        }
        var header := LoadHeader(ram, curr);
        curr := (curr + HEADER_SIZE + header.size) % WORD_LIMIT;
        left := left - 1;
        k := k + 1;
      }
      if k < |chunks| {
        Inside(chunks, start, end, k);
      }
    }

    /** First fit. The block stays in order exactly when the last chunk is taken only by splitting it. */
    method Allocate(numBytes: nat) returns (p: nat)
      requires Valid() && numBytes < WORD_LIMIT
      modifies ram, `chunks
      ensures p == Allocated(old(chunks), numBytes)
      ensures chunks == Chunks.Allocate(old(chunks), numBytes)
      ensures PayloadsKept(old(ram[..]), ram[..], Live(old(chunks)), start, start + blockSize)
      ensures AllocSafe(old(chunks), numBytes) ==> Valid()
      ensures !AllocSafe(old(chunks), numBytes) ==> !InOrder()
    {
      hide HeaderAt, Linked, Tiled, PayloadsKept, NoAdjacentFree;
      ghost var end, cs, i := start + blockSize, chunks, 0;
      Ends(cs, start, end);
      var prev, chunk := 0, chunkList;
      ReadHeader(ram[..], cs, start, end, 0);
      var header := LoadHeader(ram, chunk);
      while chunk != 0 && (header.taken != 0 || header.size < numBytes)
        invariant 0 <= i <= |cs| && chunks == cs && ram[..] == old(ram[..])
        invariant chunk == if i < |cs| then cs[i].addr else 0
        invariant prev == if i == 0 then 0 else cs[i - 1].addr
        invariant i < |cs| ==> header == HeaderOf(cs, i) && chunk != 0
        invariant FirstFit(cs, numBytes, 0) == FirstFit(cs, numBytes, i)
        decreases |cs| - i
      {
        if header.taken != 1 && header.taken != 0 {
          // Heap corruption: the source halts here.
          assert false;
        }
        prev := chunk;
        chunk := header.next;
        i := i + 1;
        if i < |cs| {
          ReadHeader(ram[..], cs, start, end, i);
        }
        if chunk != 0 {
          header := LoadHeader(ram, chunk);
        }
      }
      if chunk == 0 {
        NothingWritten(ram[..], Live(cs), start, end);
        return 0;
      }
      ReadHeader(ram[..], cs, start, end, i);
      if header.size - numBytes > HEADER_SIZE + MIN_CHUNK {
        AllocateSplit(chunk, prev, header, numBytes, i);
      } else {
        AllocateWhole(chunk, prev, header, i);
      }
      p := chunk + HEADER_SIZE;
    }

    /** The split branch: cut the tail off as a new free chunk. */
    method AllocateSplit(first: nat, prev: nat, header: Header, numBytes: nat, ghost i: nat)
      requires Valid()
      requires i < |chunks| && !chunks[i].taken && chunks[i].Splits(numBytes)
      requires first == chunks[i].addr && header == HeaderOf(chunks, i) && prev == header.prev
      modifies ram, `chunks
      ensures Valid() && chunks == AllocAt(old(chunks), i, numBytes)
      ensures PayloadsKept(old(ram[..]), ram[..], Live(old(chunks)), start, start + blockSize)
    {
      hide HeaderAt, Tiled, Linked, AllocAt, PayloadsKept, SameOutside;
      ghost var end, cs, m := start + blockSize, chunks, ram[..];
      ReadHeader(m, cs, start, end, i);
      var second := first + HEADER_SIZE + numBytes;
      StoreHeader(ram, second, Header(header.size - numBytes - HEADER_SIZE, first, header.next, Flag(false)));
      ghost var m1 := ram[..];
      if i + 1 < |cs| {
        ReadHeader(m, cs, start, end, i + 1);
        SameHeaders(m, m1, second, cs, start, end, i, i + 1);
      }
      if header.next != 0 {
        StorePrev(ram, header.next, second);
      }
      ghost var m2 := ram[..];
      StoreHeader(ram, first, Header(numBytes, prev, second, Flag(true)));
      SplitSpares(m, m1, m2, ram[..], cs, i, numBytes, start, end);
      AllocAtWellFormed(cs, i, numBytes, start, end);
      SplitHolds(m, m1, m2, ram[..], cs, i, numBytes, start, end);
      chunks := AllocAt(cs, i, numBytes);
    }

    /** The other branch: hand out the whole chunk and recompute `next` from its size. */
    method AllocateWhole(first: nat, prev: nat, header: Header, ghost i: nat)
      requires Valid()
      requires i < |chunks| && !chunks[i].taken
      requires first == chunks[i].addr && header == HeaderOf(chunks, i) && prev == header.prev
      modifies ram, `chunks
      ensures chunks == old(chunks)[i := old(chunks)[i].(taken := true)]
      ensures PayloadsKept(old(ram[..]), ram[..], Live(old(chunks)), start, start + blockSize)
      ensures i < |chunks| - 1 || start + blockSize == WORD_LIMIT ==> Valid()
      ensures i == |chunks| - 1 && start + blockSize != WORD_LIMIT ==>
                !InOrder()
    {
      hide HeaderAt, Linked, PayloadsKept, SameOutside;
      ghost var end, cs, m := start + blockSize, chunks, ram[..];
      ReadHeader(m, cs, start, end, i);
      var next := Jump(first, 1, i);
      StoreHeader(ram, first, Header(header.size, prev, next, Flag(true)));
      WriteSparesPayloads(m, ram[..], first, cs, start, end, i, Live(cs));
      chunks := cs[i := cs[i].(taken := true)];
      if i < |cs| - 1 || end == WORD_LIMIT {
        TakeHolds(m, ram[..], cs, i, true, start, end);
      } else {
        forall cs'
          ensures !Holds(ram[..], cs', start, end)
        {
          BrokenTail(m, ram[..], cs, cs', start, end, Header(header.size, prev, next, Flag(true)));
        }
      }
    }

    /** Joins chunk `i` with its successor; only header bytes are written. */
    method Merge(first: nat, second: nat, ghost i: nat) returns (r: nat)
      requires Holds(ram[..], chunks, start, start + blockSize)
      requires i + 1 < |chunks| && first == chunks[i].addr && second == chunks[i + 1].addr
      modifies ram, `chunks
      ensures r == first
      ensures Holds(ram[..], chunks, start, start + blockSize)
      ensures chunks == MergeAt(old(chunks), i)
      ensures PayloadsKept(old(ram[..]), ram[..], (set c | c in old(chunks)), start, start + blockSize)
    {
      hide HeaderAt, Tiled, Linked, MergeAt, PayloadsKept, SameOutside;
      ghost var end, cs, m := start + blockSize, chunks, ram[..];
      ReadHeader(m, cs, start, end, i);
      ReadHeader(m, cs, start, end, i + 1);
      Ordered(cs, start, end, i, i + 1);
      var h := LoadHeader(ram, first);
      var h2 := LoadHeader(ram, second);
      StoreSize(ram, first, h.size + HEADER_SIZE + h2.size);
      ghost var m1 := ram[..];
      SameHeaders(m, m1, first, cs, start, end, i, i + 1);
      h2 := LoadHeader(ram, second);
      StoreNext(ram, first, h2.next);
      ghost var m2 := ram[..];
      if i + 2 < |cs| {
        ReadHeader(m, cs, start, end, i + 2);
        SameHeaders(m, m1, first, cs, start, end, i, i + 2);
        SameHeaders(m1, m2, first, cs, start, end, i, i + 2);
      }
      if h2.next != 0 {
        StorePrev(ram, h2.next, first);
      }
      MergeSpares(m, m1, m2, ram[..], cs, i, start, end, set c | c in cs);
      MergeHolds(m, m1, m2, ram[..], cs, i, start, end);
      chunks := MergeAt(cs, i);
      r := first;
    }

    method IsFree(header: nat, ghost i: int) returns (free: bool)
      requires Holds(ram[..], chunks, start, start + blockSize)
      requires -1 <= i <= |chunks|
      requires header == if 0 <= i < |chunks| then chunks[i].addr else 0
      ensures free == FreeBlockAt(chunks, i)
    {
      if header == 0 {
        if 0 <= i < |chunks| {
          Inside(chunks, start, start + blockSize, i);
        }
        return false;
      }
      ReadHeader(ram[..], chunks, start, start + blockSize, i);
      var h := LoadHeader(ram, header);
      free := h.taken == 0;
    }

    /** Release of a live pointer, coalescing with free neighbours on both sides. */
    method Free(addr: nat)
      requires Valid() && IsLive(chunks, addr)
      modifies ram, `chunks
      ensures Valid() && chunks == Chunks.Free(old(chunks), addr)
      ensures PayloadsKept(old(ram[..]), ram[..], Live(chunks), start, start + blockSize)
    {
      hide HeaderAt, Tiled, Linked, PayloadsKept, Live;
      ghost var end, cs, m, i := start + blockSize, chunks, ram[..], IndexOf(chunks, addr);
      FreeAtWellFormed(cs, i, start, end);
      ReadHeader(m, cs, start, end, i);
      var header := addr - HEADER_SIZE;
      StoreTaken(ram, header, false);
      TakeHolds(m, ram[..], cs, i, false, start, end);
      chunks := cs[i := cs[i].(taken := false)];
      ghost var held := Live(chunks);
      ReleaseSpares(m, ram[..], cs, i, start, end);
      ReadHeader(ram[..], chunks, start, end, i);
      var h := LoadHeader(ram, header);
      var nextFree := IsFree(h.next, i + 1);
      var prevFree := IsFree(h.prev, i as int - 1);
      if nextFree {
        ghost var m1, cs1 := ram[..], chunks;
        header := Merge(header, h.next, i);
        KeptThroughMerge(m, m1, ram[..], cs1, i, start, end);
      }
      if prevFree {
        ReadHeader(ram[..], chunks, start, end, i);
        h := LoadHeader(ram, header);
        ghost var m1, cs1 := ram[..], chunks;
        header := Merge(h.prev, header, i - 1);
        KeptThroughMerge(m, m1, ram[..], cs1, i - 1, start, end);
      }
    }
  }
}
