/** encoding/binary: fixed-width little-endian integers. */
module Binary {
  import opened Types
  import opened Arithmetic

  function Pow256(n: nat): (r: nat)
    ensures r > 0
  {
    if n == 0 then 1 else 256 * Pow256(n - 1)
  }

  /** The low n bytes of x, least significant first; higher bits are cut off. */
  function LE(n: nat, x: nat): (b: Bytes)
    ensures |b| == n
  {
    if n == 0 then [] else [x % 256] + LE(n - 1, x / 256)
  }

  /** Least significant byte first. */
  lemma LittleEndian(x: nat)
    ensures LE(2, x) == [x % 256, x / 256 % 256]
    ensures LE(4, x) == [x % 256, x / 256 % 256, x / 256 / 256 % 256, x / 256 / 256 / 256 % 256]
    ensures LE(8, x) == LE(4, x) + LE(4, x / 256 / 256 / 256 / 256)
  {
    FourBytes(x);
    LEStep(8, x);
    LEStep(7, x / 256);
    LEStep(6, x / 256 / 256);
    LEStep(5, x / 256 / 256 / 256);
    hide LE;
  }

  lemma LEStep(n: nat, x: nat)
    requires n > 0
    ensures LE(n, x) == [x % 256] + LE(n - 1, x / 256)
  {}

  lemma FourBytes(x: nat)
    ensures LE(2, x) == [x % 256, x / 256 % 256]
    ensures LE(4, x) == [x % 256, x / 256 % 256, x / 256 / 256 % 256, x / 256 / 256 / 256 % 256]
  {
    var a, b, c := x / 256, x / 256 / 256, x / 256 / 256 / 256;
    LEStep(2, x);
    LEStep(1, a);
    LEStep(4, x);
    LEStep(3, a);
    LEStep(2, b);
    LEStep(1, c);
    assert forall y: nat :: LE(0, y) == [];
    hide LE;
  }

  function FromLE(b: Bytes): nat {
    if b == [] then 0 else b[0] + 256 * FromLE(b[1..])
  }

  lemma {:induction false} FromLERange(b: Bytes)
    ensures FromLE(b) < Pow256(|b|)
  {
    if b != [] {
      FromLERange(b[1..]);
    }
  }

  lemma {:induction false} ReadBack(n: nat, x: nat)
    requires x < Pow256(n)
    ensures FromLE(LE(n, x)) == x
  {
    if n > 0 {
      ReadBack(n - 1, x / 256);
      assert LE(n, x)[1..] == LE(n - 1, x / 256);
    }
  }

  lemma {:induction false} WriteBack(b: Bytes)
    ensures LE(|b|, FromLE(b)) == b
  {
    if b != [] {
      WriteBack(b[1..]);
      assert FromLE(b) % 256 == b[0] && FromLE(b) / 256 == FromLE(b[1..]);
      assert b == [b[0]] + b[1..];
    }
  }


  lemma Powers()
    ensures Pow256(1) == 256 && Pow256(2) == TWO_16 && Pow256(4) == TWO_32 && Pow256(8) == TWO_64
  {
    assert Pow256(3) == 256 * Pow256(2) && Pow256(5) == 256 * Pow256(4) && Pow256(6) == 256 * Pow256(5) && Pow256(7) == 256 * Pow256(6);
  }

  predicate IsInt64(x: int) {
    -TWO_64 <= 2 * x < TWO_64
  }

  /** An int64 in two's complement. */
  function I64(x: int): (b: Bytes)
    ensures |b| == 8
  {
    LE(8, x % TWO_64)
  }

  function FromI64(b: Bytes): int {
    var u := FromLE(b);
    if 2 * u >= TWO_64 then u - TWO_64 else u
  }

  lemma Int64RoundTrip(x: int)
    requires IsInt64(x)
    ensures FromI64(I64(x)) == x
  {
    Powers();
    ReadBack(8, x % TWO_64);
    if x < 0 {
      DivModUnique(x, TWO_64, -1, x + TWO_64);
    } else {
      DivModUnique(x, TWO_64, 0, x);
    }
  }

  lemma BytesRoundTrip(b: Bytes)
    requires |b| == 8
    ensures IsInt64(FromI64(b)) && I64(FromI64(b)) == b
  {
    Powers();
    FromLERange(b);
    WriteBack(b);
    var u := FromLE(b);
    if 2 * u >= TWO_64 {
      DivModUnique(u - TWO_64, TWO_64, -1, u);
    } else {
      DivModUnique(u, TWO_64, 0, u);
    }
  }
}
