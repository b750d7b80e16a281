/** Powers of two, the shift and mask operators the allocators use on
    non-negative numbers, and alignment.  Everything recurses on halving, so
    that the facts below are linear step by step. */
module Bits {

  function Pow2(k: nat): (r: nat)
    ensures r >= 1
  {
    if k == 0 then 1 else 2 * Pow2(k - 1)
  }

  lemma Pow2Monotonic(j: nat, k: nat)
    requires j <= k
    ensures Pow2(j) <= Pow2(k)
    ensures j < k ==> 2 * Pow2(j) <= Pow2(k)
    decreases k - j
  {
    if j < k {
      Pow2Monotonic(j, k - 1);
    }
  }

  /** `a ^ b`, bit by bit. */
  function Xor(a: nat, b: nat): nat
    decreases a + b
  {
    if a == 0 && b == 0 then 0
    else 2 * Xor(a / 2, b / 2) + (a % 2 + b % 2) % 2
  }

  /** `a & ~b`, bit by bit. */
  function AndNot(a: nat, b: nat): nat
    decreases a
  {
    if a == 0 then 0
    else 2 * AndNot(a / 2, b / 2) + (if a % 2 == 1 && b % 2 == 0 then 1 else 0)
  }

  /** `x >> o`. */
  function Shr(x: nat, o: nat): nat
    decreases o
  {
    if o == 0 then x else Shr(x / 2, o - 1)
  }

  /** `s` is a multiple of `2^o`. */
  predicate Aligned(s: nat, o: nat)
    decreases o
  {
    o == 0 || (s % 2 == 0 && Aligned(s / 2, o - 1))
  }

  /** Inside an aligned run of `2^o` numbers all share the bits above `o`. */
  lemma {:induction false} AlignedRun(s: nat, o: nat, x: nat)
    requires Aligned(s, o)
    ensures s <= x < s + Pow2(o) <==> Shr(x, o) == Shr(s, o)
    decreases o
  {
    if o != 0 {
      AlignedRun(s / 2, o - 1, x / 2);
    }
  }

  lemma {:induction false} ShrAgain(x: nat, y: nat, o: nat, p: nat)
    requires o <= p && Shr(x, o) == Shr(y, o)
    ensures Shr(x, p) == Shr(y, p)
    decreases o
  {
    if o != 0 {
      ShrAgain(x / 2, y / 2, o - 1, p - 1);
    }
  }

  /** An aligned start has its bit `o` clear exactly when it is aligned one
      order up; otherwise the run one half below it is. */
  lemma {:induction false} AlignedUp(s: nat, o: nat)
    requires Aligned(s, o)
    ensures Shr(s, o) % 2 == 0 ==>
              Aligned(s, o + 1) && Aligned(s + Pow2(o), o) && Shr(s + Pow2(o), o) == Shr(s, o) + 1
    ensures Shr(s, o) % 2 == 1 ==>
              s >= Pow2(o) && Aligned(s - Pow2(o), o + 1) && Aligned(s - Pow2(o), o)
              && Shr(s - Pow2(o), o) == Shr(s, o) - 1
    decreases o
  {
    if o != 0 {
      AlignedUp(s / 2, o - 1);
      var h, p := s / 2, Pow2(o - 1);
      assert Pow2(o) == 2 * p && Shr(s, o) == Shr(h, o - 1);
      if Shr(s, o) % 2 == 0 {
        assert (s + Pow2(o)) / 2 == h + p;
      } else {
        assert (s - Pow2(o)) / 2 == h - p;
      }
    }
  }

  lemma {:induction false} AlignedHalves(s: nat, o: nat)
    requires Aligned(s, o + 1)
    ensures Aligned(s, o) && Aligned(s + Pow2(o), o) && Shr(s, o) % 2 == 0
    decreases o
  {
    if o != 0 {
      var h, p := s / 2, Pow2(o - 1);
      AlignedHalves(h, o - 1);
      assert Pow2(o) == 2 * p && (s + Pow2(o)) / 2 == h + p && Shr(s, o) == Shr(h, o - 1);
    }
  }

  /** Flipping one bit adds or subtracts its weight. */
  lemma {:induction false} XorPow2(a: nat, o: nat)
    ensures Shr(a, o) % 2 == 0 ==> Xor(a, Pow2(o)) == a + Pow2(o)
    ensures Shr(a, o) % 2 == 1 ==> a >= Pow2(o) && Xor(a, Pow2(o)) == a - Pow2(o)
    decreases o
  {
    hide Xor, Shr, Pow2;
    if o == 0 {
      XorOne(a);
    } else {
      XorPow2(a / 2, o - 1);
      OneOrderUp(a, o);
      XorEven(a, Pow2(o - 1));
    }
  }

  lemma XorOne(a: nat)
    ensures Pow2(0) == 1 && Shr(a, 0) == a
    ensures Xor(a, 1) == if a % 2 == 0 then a + 1 else a - 1
  {
    XorZero(a / 2);
  }

  lemma OneOrderUp(a: nat, o: nat)
    requires o > 0
    ensures Pow2(o) == 2 * Pow2(o - 1) > 0 && Shr(a, o) == Shr(a / 2, o - 1)
  {
  }

  lemma XorEven(a: nat, p: nat)
    requires p > 0
    ensures Xor(a, 2 * p) == a % 2 + 2 * Xor(a / 2, p)
  {
  }

  lemma {:induction false} XorZero(a: nat)
    ensures Xor(a, 0) == a
  {
    if a != 0 {
      XorZero(a / 2);
    }
  }

  /** Clearing one bit subtracts its weight if it was set. */
  lemma {:induction false} AndNotPow2(a: nat, o: nat)
    ensures Shr(a, o) % 2 == 0 ==> AndNot(a, Pow2(o)) == a
    ensures Shr(a, o) % 2 == 1 ==> a >= Pow2(o) && AndNot(a, Pow2(o)) == a - Pow2(o)
    decreases o
  {
    if o == 0 {
      AndNotZero(a / 2);
    } else {
      AndNotPow2(a / 2, o - 1);
      if a == 0 {
        ShrZero(o);
      }
    }
  }

  lemma {:induction false} AndNotZero(a: nat)
    ensures AndNot(a, 0) == a
  {
    if a != 0 {
      AndNotZero(a / 2);
    }
  }

  lemma {:induction false} ShrZero(o: nat)
    ensures Shr(0, o) == 0
  {
    if o != 0 {
      ShrZero(o - 1);
    }
  }
}
