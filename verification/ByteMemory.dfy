/** Byte-addressed memory with little-endian 32-bit words, and the in-band chunk header of the
    kernel heap (16 bytes on i386: size, prev, next, taken and three bytes of padding). */
module ByteMemory {
  import opened MachineWords

  const HEADER_SIZE: nat := 16

  /** `taken` is the stored byte of the source's `bool`. */
  datatype Header = Header(size: nat, prev: nat, next: nat, taken: Byte) {
    predicate Encodable() {
      size < WORD_LIMIT && prev < WORD_LIMIT && next < WORD_LIMIT
    }
  }

  /** A `bool` in memory: 0 or 1. */
  function Flag(b: bool): Byte {
    if b then 1 else 0
  }

  function WordAt(m: seq<Byte>, a: nat): (w: nat)
    requires a + 4 <= |m|
    ensures w < WORD_LIMIT
  {
    var b0: int, b1: int, b2: int, b3: int := m[a], m[a + 1], m[a + 2], m[a + 3];
    b0 + 0x100 * b1 + 0x1_0000 * b2 + 0x100_0000 * b3
  }

  function HeaderAt(m: seq<Byte>, a: nat): (h: Header)
    requires a + HEADER_SIZE <= |m|
    ensures h.Encodable()
  {
    Header(WordAt(m, a), WordAt(m, a + 4), WordAt(m, a + 8), m[a + 12])
  }

  function LittleEndian(b0: int, b1: int, b2: int, b3: int): int {
    b0 + 256 * (b1 + 256 * (b2 + 256 * b3))
  }

  /** The layout of the header in bytes: size, prev and next as little-endian words, then the flag. */
  lemma HeaderInBytes(m: seq<Byte>, a: nat)
    requires a + 16 <= |m|
    ensures var h := HeaderAt(m, a);
            && h.size == LittleEndian(m[a], m[a + 1], m[a + 2], m[a + 3])
            && h.prev == LittleEndian(m[a + 4], m[a + 5], m[a + 6], m[a + 7])
            && h.next == LittleEndian(m[a + 8], m[a + 9], m[a + 10], m[a + 11])
            && h.taken == m[a + 12]
  {
  }

  /** `m'` is `m` after writing header `h` at `a`: no byte outside the 16 header bytes changed. */
  ghost predicate HeaderWritten(m: seq<Byte>, m': seq<Byte>, a: nat, h: Header) {
    && |m'| == |m|
    && a + HEADER_SIZE <= |m|
    && HeaderAt(m', a) == h
    && SameOutside(m, m', a)
  }

  ghost predicate SameOutside(m: seq<Byte>, m': seq<Byte>, a: nat)
    requires |m'| == |m|
  {
    forall k :: 0 <= k < |m| && !(a <= k < a + HEADER_SIZE) ==> m'[k] == m[k]
  }

  /** A header that does not overlap the written one is still there. */
  lemma OtherHeaderKept(m: seq<Byte>, m': seq<Byte>, a: nat, b: nat)
    requires |m'| == |m| && SameOutside(m, m', a)
    requires b + HEADER_SIZE <= |m|
    requires b + HEADER_SIZE <= a || a + HEADER_SIZE <= b
    ensures HeaderAt(m', b) == HeaderAt(m, b)
  {
  }

  lemma WordBytes(w: nat)
    requires w < WORD_LIMIT
    ensures w / 0x100_0000 < 0x100
    ensures w == w % 0x100 + 0x100 * (w / 0x100 % 0x100) + 0x1_0000 * (w / 0x1_0000 % 0x100)
                 + 0x100_0000 * (w / 0x100_0000)
  {
    assert w / 0x1_0000 == w / 0x100 / 0x100;
    assert w / 0x100_0000 == w / 0x1_0000 / 0x100;
  }

  /** A 32-bit store: the word reads back, every other byte is kept. */
  method StoreWord(ram: array<Byte>, a: nat, w: nat)
    requires a + 4 <= ram.Length && w < WORD_LIMIT
    modifies ram
    ensures WordAt(ram[..], a) == w
    ensures forall k :: 0 <= k < ram.Length && !(a <= k < a + 4) ==> ram[k] == old(ram[k])
  {
    WordBytes(w);
    ram[a] := w % 0x100;
    ram[a + 1] := w / 0x100 % 0x100;
    ram[a + 2] := w / 0x1_0000 % 0x100;
    ram[a + 3] := w / 0x100_0000;
  }

  method LoadHeader(ram: array<Byte>, a: nat) returns (h: Header)
    requires a + HEADER_SIZE <= ram.Length
    ensures h == HeaderAt(ram[..], a)
  {
    h := HeaderAt(ram[a..a + HEADER_SIZE], 0);
  }

  method StoreHeader(ram: array<Byte>, a: nat, h: Header)
    requires a + HEADER_SIZE <= ram.Length && h.Encodable()
    modifies ram
    ensures HeaderWritten(old(ram[..]), ram[..], a, h)
  {
    StoreWord(ram, a, h.size);
    StoreWord(ram, a + 4, h.prev);
    StoreWord(ram, a + 8, h.next);
    ram[a + 12] := h.taken;
  }

  method StoreSize(ram: array<Byte>, a: nat, size: nat)
    requires a + HEADER_SIZE <= ram.Length && size < WORD_LIMIT
    modifies ram
    ensures HeaderWritten(old(ram[..]), ram[..], a, old(HeaderAt(ram[..], a)).(size := size))
  {
    StoreWord(ram, a, size);
  }

  method StorePrev(ram: array<Byte>, a: nat, prev: nat)
    requires a + HEADER_SIZE <= ram.Length && prev < WORD_LIMIT
    modifies ram
    ensures HeaderWritten(old(ram[..]), ram[..], a, old(HeaderAt(ram[..], a)).(prev := prev))
  {
    StoreWord(ram, a + 4, prev);
  }

  method StoreNext(ram: array<Byte>, a: nat, next: nat)
    requires a + HEADER_SIZE <= ram.Length && next < WORD_LIMIT
    modifies ram
    ensures HeaderWritten(old(ram[..]), ram[..], a, old(HeaderAt(ram[..], a)).(next := next))
  {
    StoreWord(ram, a + 8, next);
  }

  method StoreTaken(ram: array<Byte>, a: nat, taken: bool)
    requires a + HEADER_SIZE <= ram.Length
    modifies ram
    ensures HeaderWritten(old(ram[..]), ram[..], a, old(HeaderAt(ram[..], a)).(taken := Flag(taken)))
  {
    ram[a + 12] := Flag(taken);
  }
}
