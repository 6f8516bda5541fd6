/** Whole runs on the bytes: what the kernel's callers can rely on between their requests. */
module HeapClient {
  import opened MachineWords
  import opened ByteMemory
  import opened Chunks
  import opened HeapBlock
  import opened HeapRuns

  // ---------- What callers keep in the heap ----------

  predicate Covers(c: Chunk, a: nat) { c.Payload() <= a < c.End() }

  ghost predicate InLivePayload(cs: seq<Chunk>, a: nat) {
    exists c :: c in Live(cs) && Covers(c, a)
  }

  /** The bytes that callers count on, by address: all are in live payloads and memory holds them. */
  ghost predicate Remembers(m: seq<Byte>, cs: seq<Chunk>, data: map<nat, Byte>) {
    forall a :: a in data ==> a < |m| && m[a] == data[a] && InLivePayload(cs, a)
  }

  /** A store is remembered, a release forgets the bytes of the released payload, an allocation nothing. */
  function DataAfter(data: map<nat, Byte>, cs: seq<Chunk>, request: Request): map<nat, Byte> {
    match request
    case Alloc(_) => data
    case Release(p) =>
      var i := IndexOf(cs, p);
      if i < |cs| then map a | a in data && !Covers(cs[i], a) :: data[a] else data
    case Store(p, offset, value) => data[p + offset := value]
  }

  ghost function Data(data: map<nat, Byte>, cs: seq<Chunk>, requests: seq<Request>): map<nat, Byte>
    requires RunAllowed(cs, requests)
    decreases |requests|
  {
    if requests == [] then data
    else Data(DataAfter(data, cs, requests[0]), Step(cs, requests[0]), requests[1..])
  }

  /** The request overwrites the byte at `a` or frees the payload it is in. */
  predicate Touches(cs: seq<Chunk>, request: Request, a: nat) {
    match request
    case Alloc(_) => false
    case Release(p) => exists i :: 0 <= i < |cs| && cs[i].addr + 16 == p && p <= a < p + cs[i].size
    case Store(p, offset, _) => p + offset == a
  }

  ghost predicate RunSpares(cs: seq<Chunk>, requests: seq<Request>, a: nat)
    requires RunAllowed(cs, requests)
    decreases |requests|
  {
    requests == [] || (!Touches(cs, requests[0], a) && RunSpares(Step(cs, requests[0]), requests[1..], a))
  }

  /** Data survives every run that neither overwrites nor frees it. */
  lemma {:induction false} DataKept(data: map<nat, Byte>, cs: seq<Chunk>, requests: seq<Request>, a: nat)
    requires RunAllowed(cs, requests) && RunSpares(cs, requests, a) && a in data
    ensures a in Data(data, cs, requests) && Data(data, cs, requests)[a] == data[a]
    decreases |requests|
  {
    if requests != [] {
      DataSpared(data, cs, requests[0], a);
      DataKept(DataAfter(data, cs, requests[0]), Step(cs, requests[0]), requests[1..], a);
    }
  }

  lemma DataSpared(data: map<nat, Byte>, cs: seq<Chunk>, request: Request, a: nat)
    requires a in data && !Touches(cs, request, a)
    ensures a in DataAfter(data, cs, request) && DataAfter(data, cs, request)[a] == data[a]
  {
  }

  /** What a caller stores stays until it is overwritten or freed. */
  lemma StoredIsKept(data: map<nat, Byte>, cs: seq<Chunk>, requests: seq<Request>)
    requires RunAllowed(cs, requests) && requests != [] && requests[0].Store?
    requires RunSpares(cs, requests[1..], requests[0].p + requests[0].offset)
    ensures var a := requests[0].p + requests[0].offset;
            a in Data(data, cs, requests) && Data(data, cs, requests)[a] == requests[0].value
  {
    DataKept(DataAfter(data, cs, requests[0]), cs, requests[1..], requests[0].p + requests[0].offset);
  }

  ghost predicate SameOutsideBlock(m: seq<Byte>, m': seq<Byte>, start: nat, end: nat) {
    |m'| == |m| && forall k :: 0 <= k < |m| && !(start <= k < end) ==> m'[k] == m[k]
  }

  lemma AllocRemembers(m: seq<Byte>, m': seq<Byte>, cs: seq<Chunk>, n: nat, start: nat, end: nat, data: map<nat, Byte>)
    requires WellFormed(cs, start, end) && Remembers(m, cs, data)
    requires PayloadsKept(m, m', Live(cs), start, end)
    ensures Remembers(m', Allocate(cs, n), data)
  {
    AllocateLive(cs, n, start, end);
    hide Live;
    forall a | a in data
      ensures m'[a] == m[a] && InLivePayload(Allocate(cs, n), a)
    {
      var c :| c in Live(cs) && Covers(c, a);
      assert c in Live(Allocate(cs, n));
    }
  }

  lemma ReleaseRemembers(m: seq<Byte>, m': seq<Byte>, cs: seq<Chunk>, p: nat, start: nat, end: nat, data: map<nat, Byte>)
    requires WellFormed(cs, start, end) && IsLive(cs, p) && Remembers(m, cs, data)
    requires PayloadsKept(m, m', Live(Chunks.Free(cs, p)), start, end)
    ensures Remembers(m', Chunks.Free(cs, p), DataAfter(data, cs, Release(p)))
  {
    var i := IndexOf(cs, p);
    FreeAtLive(cs, i, start, end);
    hide Live;
    forall a | a in data && !Covers(cs[i], a)
      ensures m'[a] == m[a] && InLivePayload(Chunks.Free(cs, p), a)
    {
      var c :| c in Live(cs) && Covers(c, a);
      assert c in Live(Chunks.Free(cs, p));
    }
  }

  /** Memory differs at most at `a`. */
  ghost predicate SameBut(m: seq<Byte>, m': seq<Byte>, a: nat) {
    |m'| == |m| && forall k :: 0 <= k < |m| && k != a ==> m'[k] == m[k]
  }

  lemma HeaderElsewhere(m: seq<Byte>, m': seq<Byte>, a: nat, b: nat)
    requires SameBut(m, m', a) && b + HEADER_SIZE <= |m| && !(b <= a < b + HEADER_SIZE)
    ensures HeaderAt(m', b) == HeaderAt(m, b)
  {
  }

  /** A store into a payload touches no header. */
  lemma StoreHolds(m: seq<Byte>, m': seq<Byte>, cs: seq<Chunk>, start: nat, end: nat, i: nat, a: nat)
    requires Holds(m, cs, start, end) && i < |cs| && Covers(cs[i], a) && SameBut(m, m', a)
    ensures Holds(m', cs, start, end)
  {
    hide HeaderAt, HeaderOf, Tiled, SameBut;
    forall k | 0 <= k < |cs|
      ensures cs[k].addr + HEADER_SIZE <= |m'| && HeaderAt(m', cs[k].addr) == HeaderOf(cs, k)
    {
      ReadHeader(m, cs, start, end, k);
      PayloadsDisjoint(cs, start, end, k, i);
      SameLength(m, m', a);
      HeaderElsewhere(m, m', a, cs[k].addr);
    }
    SameLength(m, m', a);
  }

  lemma SameLength(m: seq<Byte>, m': seq<Byte>, a: nat)
    requires SameBut(m, m', a)
    ensures |m'| == |m|
  {
  }

  lemma StoreRemembers(m: seq<Byte>, m': seq<Byte>, cs: seq<Chunk>, i: nat, a: nat, value: Byte, data: map<nat, Byte>)
    requires Remembers(m, cs, data) && i < |cs| && cs[i].taken && Covers(cs[i], a)
    requires SameBut(m, m', a) && a < |m| && m'[a] == value
    ensures Remembers(m', cs, data[a := value])
  {
    assert cs[i] in Live(cs);
  }

  // ---------- The code ----------

  /** Any allowed run leaves a well-formed block that holds the list of the abstract run, hands out its
      pointers, and changes no byte outside the block. Whatever callers had or put in their payloads is still
      there until they overwrite or free it. */
  method Serve(b: Block, requests: seq<Request>, ghost data: map<nat, Byte>) returns (answers: seq<nat>)
    requires b.Valid() && RunAllowed(b.chunks, requests) && Remembers(b.ram[..], b.chunks, data)
    requires forall k :: 0 <= k < |requests| && requests[k].Alloc? ==> requests[k].bytes < WORD_LIMIT
    modifies b.ram, b`chunks
    ensures b.Valid() && b.chunks == Run(old(b.chunks), requests)
    ensures answers == Answers(old(b.chunks), requests)
    ensures Remembers(b.ram[..], b.chunks, Data(data, old(b.chunks), requests))
    ensures SameOutsideBlock(old(b.ram[..]), b.ram[..], b.start, b.start + b.blockSize)
    decreases |requests|
  {
    hide Remembers, DataAfter, Holds, NoAdjacentFree, AllocSafe, Allowed, Step, Answer;
    answers := [];
    if requests == [] {
      return;
    }
    ghost var cs := b.chunks;
    var answer := ServeOne(b, requests[0], data);
    var rest := Serve(b, requests[1..], DataAfter(data, cs, requests[0]));
    answers := [answer] + rest;
  }

  method ServeOne(b: Block, request: Request, ghost data: map<nat, Byte>) returns (answer: nat)
    requires b.Valid() && Allowed(b.chunks, request) && Remembers(b.ram[..], b.chunks, data)
    requires request.Alloc? ==> request.bytes < WORD_LIMIT
    modifies b.ram, b`chunks
    ensures b.Valid() && b.chunks == Step(old(b.chunks), request)
    ensures answer == Answer(old(b.chunks), request)
    ensures Remembers(b.ram[..], b.chunks, DataAfter(data, old(b.chunks), request))
    ensures SameOutsideBlock(old(b.ram[..]), b.ram[..], b.start, b.start + b.blockSize)
  {
    ghost var m, cs, end := b.ram[..], b.chunks, b.start + b.blockSize;
    assert WellFormed(cs, b.start, end);
    hide Holds, Live, Remembers, WellFormed;
    match request
    case Alloc(n) =>
      answer := b.Allocate(n);
      AllocRemembers(m, b.ram[..], cs, n, b.start, end, data);
    case Release(p) =>
      b.Free(p);
      answer := 0;
      ReleaseRemembers(m, b.ram[..], cs, p, b.start, end, data);
    case Store(p, offset, value) =>
      StoreByte(b, IndexOf(cs, p), p + offset, value, data);
      answer := 0;
  }

  /** A caller stores a byte behind a pointer it holds. */
  method StoreByte(b: Block, ghost i: nat, a: nat, value: Byte, ghost data: map<nat, Byte>)
    requires b.Valid() && i < |b.chunks| && b.chunks[i].taken && Covers(b.chunks[i], a)
    requires Remembers(b.ram[..], b.chunks, data)
    modifies b.ram
    ensures b.Valid() && Remembers(b.ram[..], b.chunks, data[a := value])
    ensures SameOutsideBlock(old(b.ram[..]), b.ram[..], b.start, b.start + b.blockSize)
  {
    hide Remembers, Linked, NoAdjacentFree;
    ghost var m, end := b.ram[..], b.start + b.blockSize;
    Inside(b.chunks, b.start, end, i);
    hide Tiled;
    b.ram[a] := value;
    assert SameBut(m, b.ram[..], a);
    StoreRemembers(m, b.ram[..], b.chunks, i, a, value, data);
    StoreHolds(m, b.ram[..], b.chunks, b.start, end, i, a);
  }
}
