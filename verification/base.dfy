/** Machine-level vocabulary shared by the whole analyzer: bytes, 64-bit
    unsigned words, Go's signed 64-bit reading of a word, big-endian byte
    strings and an Option type for "found / not found" results. */
module Base {

  /** One byte of bytecode. */
  type Byte = b: int | 0 <= b < 256

  const TWO_64: int := 0x1_0000_0000_0000_0000
  const TWO_63: int := 0x8000_0000_0000_0000

  /** A Go `uint64`. */
  type U64 = x: int | 0 <= x < TWO_64

  datatype Option<+T> = None | Some(value: T)

  /** The unbounded unsigned integer whose big-endian encoding is `bs`. */
  function BigEndian(bs: seq<Byte>): nat
    decreases |bs|
  {
    if bs == [] then 0 else BigEndian(bs[..|bs| - 1]) * 256 + bs[|bs| - 1]
  }

  /** The loop `v = (v << 8) | b` over `bs`, run in a 64-bit register:
      the shift drops the bits above bit 63, and the OR of a byte into the
      eight zero bits the shift left behind is an addition. */
  function FoldU64(bs: seq<Byte>): U64
    decreases |bs|
  {
    if bs == [] then 0 else (FoldU64(bs[..|bs| - 1]) * 256 + bs[|bs| - 1]) % TWO_64
  }

  /** A 64-bit pattern read as a two's-complement Go `int`. */
  function ToSigned64(u: U64): (r: int)
    ensures -TWO_63 <= r < TWO_63
    ensures r % TWO_64 == u
    ensures r < 0 <==> u >= TWO_63
  {
    if u < TWO_63 then u else u - TWO_64
  }

  lemma ShiftInModulus(x: int, b: int)
    ensures ((x % TWO_64) * 256 + b) % TWO_64 == (x * 256 + b) % TWO_64
  {
    var q := x / TWO_64;
    var r := x % TWO_64;
    assert x == q * TWO_64 + r;
    assert x * 256 + b == (q * 256) * TWO_64 + (r * 256 + b);
  }

  /** The 64-bit shift-and-or loop computes the big-endian value modulo 2^64:
      the register keeps exactly the low 64 bits of the true value. */
  lemma {:induction false} FoldU64IsBigEndianMod(bs: seq<Byte>)
    ensures FoldU64(bs) == BigEndian(bs) % TWO_64
    decreases |bs|
  {
    if bs != [] {
      var init := bs[..|bs| - 1];
      FoldU64IsBigEndianMod(init);
      ShiftInModulus(BigEndian(init), bs[|bs| - 1]);
    }
  }

  /** Fewer than eight bytes never overflow the register. */
  lemma {:induction false} BigEndianBound(bs: seq<Byte>)
    ensures BigEndian(bs) < Pow256(|bs|)
    decreases |bs|
  {
    if bs != [] {
      BigEndianBound(bs[..|bs| - 1]);
    }
  }

  function Pow256(n: nat): (r: nat)
    ensures r >= 1
  {
    if n == 0 then 1 else 256 * Pow256(n - 1)
  }

  lemma {:induction false} Pow256Monotone(m: nat, n: nat)
    requires m <= n
    ensures Pow256(m) <= Pow256(n)
    decreases n
  {
    if m < n {
      Pow256Monotone(m, n - 1);
    }
  }

  /** Up to seven bytes, the 64-bit loop and the signed reading both give the
      plain big-endian value. */
  lemma ShortOperandIsExact(bs: seq<Byte>)
    requires |bs| <= 7
    ensures FoldU64(bs) == BigEndian(bs)
    ensures ToSigned64(FoldU64(bs)) == BigEndian(bs)
  {
    BigEndianBound(bs);
    Pow256Monotone(|bs|, 7);
    assert Pow256(7) == 0x100_0000_0000_0000;
    FoldU64IsBigEndianMod(bs);
  }
}
