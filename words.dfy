// Unsigned integers and the 64-bit words that hold them.  Table sizes, loop
// counters and the configuration number in the source are `int`; table
// indexes are `uint64_t`, whose arithmetic is arithmetic modulo 2^64.  The
// index computations of the magic tables are stated on the values of the
// words involved, as the C++ rules for unsigned arithmetic define them.

module Words {
  import opened Bitboards

  function Pow2(n: nat): (r: nat)
    ensures r >= 1
  {
    if n == 0 then 1 else 2 * Pow2(n - 1)
  }

  /** Bit k of the natural number i (`i & (1 << k)` for a non-negative `int`). */
  predicate IBit(i: nat, k: nat)
  {
    if k == 0 then i % 2 == 1 else IBit(i / 2, k - 1)
  }

  /** The value of the low w bits of x, read as an unsigned number. */
  function ValueOf(x: Bitboard, w: nat): nat
  {
    if w == 0 then 0 else 2 * ValueOf(x >> 1, w - 1) + (if x & 1 == 0 then 0 else 1)
  }

  /** The unsigned value of a 64-bit word. */
  function Value(x: Bitboard): nat
  {
    ValueOf(x, 64)
  }

  /** w bits hold a value below 2^w. */
  lemma {:induction false} ValueOfBound(x: Bitboard, w: nat)
    ensures ValueOf(x, w) < Pow2(w)
  {
    if w > 0 {
      ValueOfBound(x >> 1, w - 1);
    }
  }

  /** `a * b` on `uint64_t`: the product of the values, reduced modulo 2^64. */
  function MulWord(a: Bitboard, b: Bitboard): (r: nat)
    ensures r < Pow2(64)
  {
    (Value(a) * Value(b)) % Pow2(64)
  }

  /** `v >> s` on an unsigned value: s halvings, each dropping the low bit. */
  function ShiftRight(v: nat, s: nat): nat
  {
    if s == 0 then v else ShiftRight(v / 2, s - 1)
  }

  /** A value below 2^(w + s), shifted right by s, is below 2^w. */
  lemma {:induction false} ShiftBelow(v: nat, s: nat, w: nat)
    requires v < Pow2(w + s)
    ensures ShiftRight(v, s) < Pow2(w)
  {
    if s > 0 {
      ShiftBelow(v / 2, s - 1, w);
    }
  }

  /** A 64-bit value shifted right by 64 - p is below 2^p. */
  lemma ShiftFits(v: nat, p: nat)
    requires p <= 64 && v < Pow2(64)
    ensures ShiftRight(v, 64 - p) < Pow2(p)
  {
    ShiftBelow(v, 64 - p, p);
  }

  /** `a & b` on the low w bits of two unsigned values. */
  function AndValue(a: nat, b: nat, w: nat): nat
  {
    if w == 0 then 0
    else 2 * AndValue(a / 2, b / 2, w - 1) + (if a % 2 == 1 && b % 2 == 1 then 1 else 0)
  }

  /** `a & ((1 << p) - 1)` leaves a value below 2^p unchanged. */
  lemma {:induction false} AndLowMask(a: nat, p: nat, w: nat)
    requires p <= w && a < Pow2(p)
    ensures AndValue(a, Pow2(p) - 1, w) == a
  {
    if w > 0 {
      if p == 0 {
        AndLowMask(0, 0, w - 1);
      } else {
        assert (Pow2(p) - 1) / 2 == Pow2(p - 1) - 1 && (Pow2(p) - 1) % 2 == 1;
        AndLowMask(a / 2, p - 1, w - 1);
      }
    }
  }

  /** A value below 2^p is unchanged by the mask 2^p - 1, over 64 bits. */
  lemma LowMaskKeeps(a: nat, m: nat, p: nat)
    requires p <= 64 && a < Pow2(p) && m == Pow2(p) - 1
    ensures AndValue(a, m, 64) == a
  {
    AndLowMask(a, p, 64);
  }

  /** `a ^ b` on the low w bits of two unsigned values. */
  function XorValue(a: nat, b: nat, w: nat): nat
  {
    if w == 0 then 0
    else 2 * XorValue(a / 2, b / 2, w - 1) + (if a % 2 == b % 2 then 0 else 1)
  }

  lemma {:induction false} XorCommutes(a: nat, b: nat, w: nat)
    ensures XorValue(a, b, w) == XorValue(b, a, w)
  {
    if w > 0 {
      XorCommutes(a / 2, b / 2, w - 1);
    }
  }

  lemma {:induction false} XorAssociates(a: nat, b: nat, c: nat, w: nat)
    ensures XorValue(XorValue(a, b, w), c, w) == XorValue(a, XorValue(b, c, w), w)
  {
    if w > 0 {
      var ab := XorValue(a, b, w);
      var bc := XorValue(b, c, w);
      assert ab / 2 == XorValue(a / 2, b / 2, w - 1);
      assert bc / 2 == XorValue(b / 2, c / 2, w - 1);
      XorAssociates(a / 2, b / 2, c / 2, w - 1);
    }
  }

  /** Xor-ing the same value twice gives back a value that fits the width. */
  lemma {:induction false} XorCancels(a: nat, k: nat, w: nat)
    requires a < Pow2(w)
    ensures XorValue(XorValue(a, k, w), k, w) == a
  {
    if w > 0 {
      XorCancels(a / 2, k / 2, w - 1);
    }
  }

  lemma {:induction false} XorBound(a: nat, b: nat, w: nat)
    ensures XorValue(a, b, w) < Pow2(w)
  {
    if w > 0 {
      XorBound(a / 2, b / 2, w - 1);
    }
  }
}
