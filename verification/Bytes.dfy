/** Bytes, the integer widths of the C and JavaScript code, and network byte order. */
module Bytes {
  type byte = b: int | 0 <= b < 256

  const TWO_16: int := 0x1_0000
  const TWO_32: int := 0x1_0000_0000
  const TWO_64: int := 0x1_0000_0000_0000_0000

  type u16 = n: int | 0 <= n < TWO_16
  type u32 = n: int | 0 <= n < TWO_32
  type u64 = n: int | 0 <= n < TWO_64

  datatype Option<+T> = None | Some(value: T)

  function Pow256(k: nat): (p: nat)
    ensures p > 0
  {
    if k == 0 then 1 else 256 * Pow256(k - 1)
  }

  /** The `k` low-order bytes of `v`, most significant first. */
  function Big(k: nat, v: nat): (s: seq<byte>)
    ensures |s| == k
  {
    if k == 0 then [] else Big(k - 1, v / 256) + [v % 256]
  }

  /** The number whose big-endian digits are `s`. */
  function Value(s: seq<byte>): (v: nat)
    ensures v < Pow256(|s|)
  {
    if s == [] then 0 else 256 * Value(s[..|s| - 1]) + s[|s| - 1]
  }

  lemma Widths()
    ensures Pow256(2) == TWO_16 && Pow256(4) == TWO_32 && Pow256(8) == TWO_64
  {
    assert Pow256(3) == 256 * Pow256(2);
    assert Pow256(4) == 256 * Pow256(3);
    assert Pow256(5) == 256 * Pow256(4);
    assert Pow256(6) == 256 * Pow256(5);
    assert Pow256(7) == 256 * Pow256(6);
  }

  /** Printing then reading gives the number back exactly when it fits the field. */
  lemma {:induction false} ReadAfterPrint(k: nat, v: nat)
    ensures Value(Big(k, v)) == v <==> v < Pow256(k)
  {
    if k > 0 {
      ReadAfterPrint(k - 1, v / 256);
      assert Big(k, v)[..k - 1] == Big(k - 1, v / 256);
    }
  }

  /** Reading then printing gives the field back: the encoding is canonical. */
  lemma {:induction false} PrintAfterRead(s: seq<byte>)
    ensures Big(|s|, Value(s)) == s
  {
    if s != [] {
      var n := |s| - 1;
      PrintAfterRead(s[..n]);
      assert s == s[..n] + [s[n]];
    }
  }

  /** A 16, 32 or 64-bit field holds its value without loss. */
  lemma FieldRoundTrip(v: nat)
    ensures v < TWO_16 ==> Value(Big(2, v)) == v
    ensures v < TWO_32 ==> Value(Big(4, v)) == v
    ensures v < TWO_64 ==> Value(Big(8, v)) == v
  {
    Widths();
    ReadAfterPrint(2, v);
    ReadAfterPrint(4, v);
    ReadAfterPrint(8, v);
  }

  function Read16(s: seq<byte>): (v: u16)
    requires |s| == 2
    ensures Big(2, v) == s
  {
    Widths();
    PrintAfterRead(s);
    Value(s)
  }

  function Read32(s: seq<byte>): (v: u32)
    requires |s| == 4
    ensures Big(4, v) == s
  {
    Widths();
    PrintAfterRead(s);
    Value(s)
  }

  function Read64(s: seq<byte>): (v: u64)
    requires |s| == 8
    ensures Big(8, v) == s
  {
    Widths();
    PrintAfterRead(s);
    Value(s)
  }

  /** Four bytes put together by shifting, as `do_list` does. */
  function Shifted(a: int, b: int, c: int, d: int): int {
    ((a * 256 + b) * 256 + c) * 256 + d
  }

  lemma ShiftedIsValue(s: seq<byte>)
    requires |s| == 4
    ensures Shifted(s[0], s[1], s[2], s[3]) == Value(s)
  {
    assert s[..3][..2] == s[..2] && s[..2][..1] == s[..1];
    assert Value(s[..2]) == 256 * Value(s[..1]) + s[1];
    assert Value(s[..3]) == 256 * Value(s[..2]) + s[2];
  }

  /** Eight bytes are read as two halves of four. */
  lemma ValueOfHalves(s: seq<byte>)
    requires |s| == 8
    ensures Value(s) == Value(s[..4]) * TWO_32 + Value(s[4..])
  {
    ShiftedIsValue(s[4..]);
    assert s[..7][..6][..5][..4] == s[..4];
    assert Value(s[..5]) == 256 * Value(s[..4]) + s[4] by { assert s[..5][..4] == s[..4]; }
    assert Value(s[..6]) == 256 * Value(s[..5]) + s[5] by { assert s[..6][..5] == s[..5]; }
    assert Value(s[..7]) == 256 * Value(s[..6]) + s[6] by { assert s[..7][..6] == s[..6]; }
    assert Value(s) == 256 * Value(s[..7]) + s[7];
  }

  /** Two values of one width with the same bytes are the same value. */
  lemma PrintInjective(k: nat, v: nat, v': nat)
    requires v < Pow256(k) && v' < Pow256(k)
    requires Big(k, v) == Big(k, v')
    ensures v == v'
  {
    ReadAfterPrint(k, v);
    ReadAfterPrint(k, v');
  }

  /** Stores `k` bytes of `v` at `off`, as the C writers do with `hton*` and `memcpy`. */
  method WriteBig(buf: array<byte>, off: nat, k: nat, v: nat)
    requires off + k <= buf.Length
    modifies buf
    ensures buf[off..off + k] == Big(k, v)
    ensures buf[..off] == old(buf[..off]) && buf[off + k..] == old(buf[off + k..])
  {
    var i := k;
    var rest := v;
    while i > 0
      invariant 0 <= i <= k && rest >= 0
      invariant buf[..off] == old(buf[..off]) && buf[off + k..] == old(buf[off + k..])
      invariant Big(k, v) == Big(i, rest) + buf[off + i..off + k]
    {
      i := i - 1;
      ghost var done := buf[off + i + 1..off + k];
      buf[off + i] := rest % 256;
      assert buf[off + i..off + k] == [rest % 256] + done;
      rest := rest / 256;
    }
  }

  /** `memcpy` of `s` into a buffer at `off`, seen from the part of the buffer filled so far. */
  method PutBytes(buf: array<byte>, off: nat, s: seq<byte>)
    requires off + |s| <= buf.Length
    modifies buf
    ensures buf[..off + |s|] == old(buf[..off]) + s
  {
    for i := 0 to |s|
      invariant buf[..off] == old(buf[..off])
      invariant buf[off..off + i] == s[..i]
    {
      buf[off + i] := s[i];
      assert buf[off..off + i + 1] == buf[off..off + i] + [s[i]];
    }
    assert buf[..off + |s|] == buf[..off] + buf[off..off + |s|];
  }
}
