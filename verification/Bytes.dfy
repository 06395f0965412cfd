/** Fixed-width little-endian integers. */
module Bytes {
  import opened Common

  const TWO_32 := 0x1_0000_0000
  const TWO_64 := 0x1_0000_0000_0000_0000

  type i64 = x: int | -0x8000_0000_0000_0000 <= x < 0x8000_0000_0000_0000

  function Pow256(k: nat): (r: nat)
    ensures r > 0
  {
    if k == 0 then 1 else 256 * Pow256(k - 1)
  }

  /** The k low-order bytes of n, least significant first. */
  function LittleEndian(n: nat, k: nat): (r: seq<byte>)
    ensures |r| == k
  {
    if k == 0 then [] else [n % 256] + LittleEndian(n / 256, k - 1)
  }

  function FromLittleEndian(s: seq<byte>): (n: nat)
    ensures n < Pow256(|s|)
  {
    if s == [] then 0 else s[0] + 256 * FromLittleEndian(s[1..])
  }

  lemma {:induction false} LittleEndianRoundTrip(n: nat, k: nat)
    requires n < Pow256(k)
    ensures FromLittleEndian(LittleEndian(n, k)) == n
  {
    if k > 0 {
      LittleEndianRoundTrip(n / 256, k - 1);
      assert LittleEndian(n, k)[1..] == LittleEndian(n / 256, k - 1);
    }
  }

  /** Byte i counts 256^i. */
  lemma {:induction false} LittleEndianDigits(n: nat, k: nat, i: nat)
    requires i < k
    ensures LittleEndian(n, k)[i] == (n / Pow256(i)) % 256
  {
    if i > 0 {
      LittleEndianDigits(n / 256, k - 1, i - 1);
      DivideTwice(n, 256, Pow256(i - 1));
    }
  }

  lemma DivideTwice(n: nat, a: nat, b: nat)
    requires a > 0 && b > 0
    ensures a * b > 0 && (n / a) / b == n / (a * b)
  {
    var q, r := n / a, n % a;
    var p, s := q / b, q % b;
    Division(n, a);
    Division(q, b);
    Expand(a, b, p, s);
    Remainder(a, b, s, r);
    Quotient(n, a * b, p, a * s + r);
  }

  lemma Division(n: nat, d: nat)
    requires d > 0
    ensures n == d * (n / d) + n % d && n % d < d
  {
  }

  lemma Expand(a: nat, b: nat, p: nat, s: nat)
    ensures a * (b * p + s) == (a * b) * p + a * s
  {
    assert a * (b * p) == (a * b) * p;
  }

  lemma Remainder(a: nat, b: nat, s: nat, r: nat)
    requires s < b && r < a
    ensures a * s + r < a * b
  {
    MonotoneProduct(a, s + 1, b);
    assert a * (s + 1) == a * s + a;
  }

  lemma MonotoneProduct(a: nat, x: nat, y: nat)
    ensures x <= y ==> a * x <= a * y
  {
    if x <= y { assert a * y == a * x + a * (y - x); }
  }

  lemma Quotient(n: nat, d: nat, q: nat, r: nat)
    requires n == d * q + r && r < d
    ensures n / d == q
  {
    var p := n / d;
    Division(n, d);
    MonotoneProduct(d, p + 1, q);
    MonotoneProduct(d, q + 1, p);
    assert d * (p + 1) == d * p + d && d * (q + 1) == d * q + d;
  }

  /** to_le_bytes of a 32-bit unsigned integer. */
  function U32Bytes(n: nat): (r: seq<byte>)
    requires n < TWO_32
    ensures |r| == 4
  {
    LittleEndian(n, 4)
  }

  /** to_le_bytes of a signed 64-bit integer: two's complement. */
  function I64Bytes(x: i64): (r: seq<byte>)
    ensures |r| == 8
  {
    LittleEndian(x % TWO_64, 8)
  }

  function I64FromBytes(s: seq<byte>): int {
    var n := FromLittleEndian(s);
    if n < 0x8000_0000_0000_0000 then n else n - TWO_64
  }

  lemma Powers()
    ensures Pow256(4) == TWO_32 && Pow256(8) == TWO_64
  {
    assert Pow256(2) == 0x1_0000;
    assert Pow256(3) == 0x100_0000;
    assert Pow256(4) == TWO_32;
    assert Pow256(5) == 0x100_0000_0000;
    assert Pow256(6) == 0x1_0000_0000_0000;
    assert Pow256(7) == 0x100_0000_0000_0000;
  }

  lemma U32RoundTrip(n: nat)
    requires n < TWO_32
    ensures FromLittleEndian(U32Bytes(n)) == n
  {
    hide Pow256, LittleEndian, FromLittleEndian;
    Powers();
    LittleEndianRoundTrip(n, 4);
  }

  lemma I64RoundTrip(x: i64)
    ensures I64FromBytes(I64Bytes(x)) == x
  {
    hide Pow256, LittleEndian, FromLittleEndian;
    Powers();
    LittleEndianRoundTrip(x % TWO_64, 8);
  }
}
