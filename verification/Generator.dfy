/** Request Ids (generator.go): a member prefix over a 48-bit suffix that counts up from a timestamp.
    The bit operations are written as arithmetic on uint64 values: lowbit keeps a remainder, and the
    prefix, whose low 48 bits are zero, is joined by addition. */
module Generators {
  import opened Types
  import opened Arithmetic

  const TWO_8 := 0x100
  const TWO_40 := 0x100_0000_0000
  const TWO_48 := 0x1_0000_0000_0000

  datatype GeneratorState = GeneratorState(prefix: nat, suffix: nat)

  /** The wall clock in nanoseconds is a parameter. */
  function NewGenerator(memberId: nat, unixNano: nat): (g: GeneratorState)
    requires memberId < TWO_16
    ensures g.prefix == memberId * TWO_48 && g.suffix < TWO_48
  {
    GeneratorState(memberId * TWO_48, unixNano % TWO_64 / 1_000_000 % TWO_40 * TWO_8)
  }

  /** The n-th Id a generator hands out, counting from 1; the counter wraps at 64 bits. */
  function NthId(g: GeneratorState, n: nat): nat {
    g.prefix + (g.suffix + n) % TWO_64 % TWO_48
  }

  class Generator {
    const prefix: nat
    var suffix: nat

    ghost function View(): GeneratorState
      reads this
    {
      GeneratorState(prefix, suffix)
    }

    constructor (memberId: nat, unixNano: nat)
      requires memberId < TWO_16
      ensures View() == NewGenerator(memberId, unixNano)
    {
      prefix := memberId * TWO_48;
      var unixMilli := unixNano % TWO_64 / 1_000_000;
      suffix := unixMilli % TWO_40 * TWO_8;
    }

    method Next() returns (id: nat)
      modifies this
      ensures suffix == (old(suffix) + 1) % TWO_64
      ensures id == NthId(old(View()), 1)
    {
      suffix := (suffix + 1) % TWO_64;
      id := prefix + suffix % TWO_48;
    }
  }

  function After(g: GeneratorState, n: nat): GeneratorState {
    g.(suffix := (g.suffix + n) % TWO_64)
  }

  lemma WrapIsHarmless(x: nat)
    ensures x % TWO_64 % TWO_48 == x % TWO_48
  {
    var q, r := x / TWO_64, x % TWO_64;
    assert x == (q * TWO_16 + r / TWO_48) * TWO_48 + r % TWO_48;
    DivModUnique(x, TWO_48, q * TWO_16 + r / TWO_48, r % TWO_48);
  }

  /** Calls of Next in a row hand out NthId(g, 1), NthId(g, 2) and so on. */
  lemma NextAfter(g: GeneratorState, n: nat)
    ensures NthId(After(g, n), 1) == NthId(g, n + 1) && After(After(g, n), 1) == After(g, n + 1)
  {
    var x := g.suffix + n;
    var q, r := x / TWO_64, x % TWO_64;
    assert x + 1 == q * TWO_64 + (r + 1);
    assert (x + 1) % TWO_64 == (r + 1) % TWO_64 by {
      if r + 1 < TWO_64 {
        DivModUnique(x + 1, TWO_64, q, r + 1);
      } else {
        DivModUnique(x + 1, TWO_64, q + 1, 0);
      }
    }
  }

  /** Two Ids of one generator are equal exactly when their numbers are a multiple of 2^48 apart, so any
      2^48 in a row are distinct, through the overflow into the timestamp bits and the 64-bit wrap. */
  lemma IdsRepeatEvery48Bits(g: GeneratorState, i: nat, j: nat)
    ensures NthId(g, i) == NthId(g, j) <==> (i - j) % TWO_48 == 0
  {
    var a, b := g.suffix + i, g.suffix + j;
    WrapIsHarmless(a);
    WrapIsHarmless(b);
    assert i - j == (a / TWO_48 - b / TWO_48) * TWO_48 + (a % TWO_48 - b % TWO_48);
    if a % TWO_48 >= b % TWO_48 {
      DivModUnique(i - j, TWO_48, a / TWO_48 - b / TWO_48, a % TWO_48 - b % TWO_48);
    } else {
      DivModUnique(i - j, TWO_48, a / TWO_48 - b / TWO_48 - 1, a % TWO_48 - b % TWO_48 + TWO_48);
    }
  }

  lemma ConsecutiveIdsDistinct(g: GeneratorState, first: nat, i: nat, j: nat)
    requires first <= i < j < first + TWO_48
    ensures NthId(g, i) != NthId(g, j)
  {
    IdsRepeatEvery48Bits(g, i, j);
    DivModUnique(i - j, TWO_48, -1, i - j + TWO_48);
  }

  /** Generators of different members never hand out a common Id. */
  lemma MembersNeverCollide(m: nat, n: nat, nowM: nat, nowN: nat, i: nat, j: nat)
    requires m < TWO_16 && n < TWO_16 && m != n
    ensures NthId(NewGenerator(m, nowM), i) != NthId(NewGenerator(n, nowN), j)
    ensures NthId(NewGenerator(m, nowM), i) < TWO_64
  {
    var x, y := NthId(NewGenerator(m, nowM), i), NthId(NewGenerator(n, nowN), j);
    DivModUnique(x, TWO_48, m, x - m * TWO_48);
    DivModUnique(y, TWO_48, n, y - n * TWO_48);
  }

  function Millis(unixNano: nat): nat {
    unixNano % TWO_64 / 1_000_000
  }

  /** A restarted generator starts from its own millisecond: byte 0 of the suffix is the counter, bytes 1 to 5 the
      low 40 bits of the time. */
  lemma SuffixIsTime(memberId: nat, now: nat)
    requires memberId < TWO_16
    ensures NewGenerator(memberId, now).suffix == Millis(now) % TWO_40 * TWO_8
  {}

  /** A member that restarts d milliseconds later, within 2^40, repeats none of its earlier Ids as long as it had
      handed out at most 256 for each of them, and stays within the 48-bit window now. */
  lemma RestartStaysDistinct(m: nat, before: nat, now: nat, d: nat, i: nat, j: nat)
    requires m < TWO_16 && Millis(now) == Millis(before) + d && d < TWO_40
    requires i <= d * TWO_8 && 1 <= j && d * TWO_8 + j < TWO_48
    ensures NthId(NewGenerator(m, before), i) != NthId(NewGenerator(m, now), j)
  {
    var x, y := Millis(before), Millis(now);
    var a, b := x % TWO_40 * TWO_8 + i, y % TWO_40 * TWO_8 + j;
    WrapIsHarmless(a);
    WrapIsHarmless(b);
    SameTime(x, i);
    SameTime(y, j);
    var s, t := x * TWO_8 + i, y * TWO_8 + j;
    assert t - s == d * TWO_8 + j - i;
    if s % TWO_48 == t % TWO_48 {
      DivModUnique(t - s, TWO_48, t / TWO_48 - s / TWO_48, 0);
      DivModUnique(t - s, TWO_48, 0, t - s);
    }
  }

  /** The part of the time beyond 40 bits does not reach the Id. */
  lemma SameTime(x: nat, n: nat)
    ensures (x % TWO_40 * TWO_8 + n) % TWO_48 == (x * TWO_8 + n) % TWO_48
  {
    var q, r := x / TWO_40, x % TWO_40;
    var u := r * TWO_8 + n;
    assert x * TWO_8 + n == (q + u / TWO_48) * TWO_48 + u % TWO_48;
    DivModUnique(x * TWO_8 + n, TWO_48, q + u / TWO_48, u % TWO_48);
  }
}
