/** NUL-terminated strings: `itoa`, `strlen`, `strcpy` and `isspace`. */
module CString {
  import opened MachineWords

  const NUL: char := '\0'

  /** The text before the first NUL. */
  function Text(s: seq<char>): (t: string)
    ensures |t| <= |s| && t == s[..|t|] && NUL !in t
    ensures |t| < |s| ==> s[|t|] == NUL
  {
    if s == [] || s[0] == NUL then [] else [s[0]] + Text(s[1..])
  }

  lemma {:induction false} TextOf(s: seq<char>, t: string)
    requires |t| < |s| && s[..|t|] == t && s[|t|] == NUL && NUL !in t
    ensures Text(s) == t
  {
  }

  predicate IsSpace(c: char) {
    c == ' ' || c == '\t' || c == '\n' || c == '\U{7}'
  }

  /** Blank, tab, newline and bell. */
  lemma SpaceCodes(c: char)
    ensures IsSpace(c) <==> c as int in {32, 9, 10, 7}
  {
  }

  method StrLen(s: array<char>) returns (len: nat)
    requires |Text(s[..])| < s.Length
    ensures len == |Text(s[..])|
  {
    len := 0;
    while s[len] != NUL
      invariant len <= |Text(s[..])|
      decreases s.Length - len
    {
      len := len + 1;
    }
  }

  /** Copies `src` and its terminator; `dest` must have room. */
  method StrCpy(dest: array<char>, src: string)
    requires |src| < dest.Length && NUL !in src
    modifies dest
    ensures Text(dest[..]) == src
    ensures forall k :: |src| < k < dest.Length ==> dest[k] == old(dest[k])
  {
    for i := 0 to |src|
      invariant dest[..i] == src[..i]
      invariant forall k :: i <= k < dest.Length ==> dest[k] == old(dest[k])
    {
      dest[i] := src[i];
    }
    dest[|src|] := NUL;
    TextOf(dest[..], src);
  }

  // ---------- Decimal digits ----------

  function DigitChar(d: nat): (c: char)
    requires d < 10
    ensures c != NUL
  {
    '0' + d as char
  }

  /** The decimal digits of `val`; nothing for 0. */
  function Digits(val: nat): (s: string)
    ensures NUL !in s
    decreases val
  {
    if val == 0 then [] else Digits(val / 10) + [DigitChar(val % 10)]
  }

  function DigitValue(c: char): nat {
    if '0' <= c <= '9' then c as int - '0' as int else 0
  }

  function Parse(s: string): nat {
    if s == [] then 0 else 10 * Parse(s[..|s| - 1]) + DigitValue(s[|s| - 1])
  }

  /** The text of every value parses back, has decimal digits only and no leading zero; zero has the empty text. */
  lemma {:induction false} ParseDigits(val: nat)
    ensures Parse(Digits(val)) == val && (Digits(val) == [] <==> val == 0)
    ensures forall c :: c in Digits(val) ==> '0' <= c <= '9'
    ensures val > 0 ==> Digits(val)[0] != '0'
    decreases val
  {
    if val > 0 {
      ParseDigits(val / 10);
      assert Digits(val)[..|Digits(val)| - 1] == Digits(val / 10);
      assert Digits(val)[|Digits(val)| - 1] == DigitChar(val % 10);
    }
  }

  function Pow10(n: nat): nat {
    if n == 0 then 1 else 10 * Pow10(n - 1)
  }

  lemma {:induction false} DigitsBound(val: nat, n: nat)
    requires val < Pow10(n)
    ensures |Digits(val)| <= n
    decreases n
  {
    if val > 0 {
      DigitsBound(val / 10, n - 1);
    }
  }

  lemma TenDigits(val: nat)
    requires val < WORD_LIMIT
    ensures |Digits(val)| <= 10
  {
    assert Pow10(3) == 1000;
    assert Pow10(6) == 1000_000;
    assert Pow10(9) == 1000_000_000;
    DigitsBound(val, 10);
  }

  method CountDigits(val: nat) returns (n: nat)
    ensures n == |Digits(val)|
  {
    n := 0;
    var c := val;
    while c != 0
      invariant n + |Digits(c)| == |Digits(val)|
    {
      c := c / 10;
      n := n + 1;
    }
  }

  /** Counts the digits, then writes them from the last to the first. */
  method Itoa(val: nat, s: array<char>)
    requires val < WORD_LIMIT && |Digits(val)| < s.Length
    modifies s
    ensures Text(s[..]) == Digits(val)
  {
    hide Text;
    var n := CountDigits(val);
    s[n] := NUL;
    var i: int := n as int - 1;
    var rest := val;
    while rest != 0
      invariant 0 <= rest <= val && i == |Digits(rest)| - 1 && |Digits(rest)| <= n
      invariant s[n] == NUL && Digits(rest) + s[i + 1..n] == Digits(val)
    {
      ghost var tail := s[i + 1..n];
      s[i] := DigitChar(rest % 10);
      assert s[i..n] == [DigitChar(rest % 10)] + tail;
      rest := rest / 10;
      i := i - 1;
    }
    assert s[..n] == Digits(val);
    TextOf(s[..], Digits(val));
  }
}
