/** Aligned power-of-two blocks of page frames, and XOR on naturals.

    A block of order k is a maximal run of frames that agree on `Anc(_, k)`, the
    frame number with its k lowest bits dropped.  Stating alignment this way
    makes nesting of blocks true by definition. */
module Blocks {

  function Pow2(k: nat): (r: nat)
    ensures r >= 1
  {
    if k == 0 then 1 else 2 * Pow2(k - 1)
  }

  /** The block number of frame `p` at order `k`. */
  function Anc(p: nat, k: nat): nat {
    if k == 0 then p else Anc(p, k - 1) / 2
  }

  /** The first frame of block `a` of order `k`: a * 2^k, by repeated doubling. */
  function Base(a: nat, k: nat): nat {
    if k == 0 then a else 2 * Base(a, k - 1)
  }

  predicate IsHead(p: nat, k: nat) {
    p == Base(Anc(p, k), k)
  }

  lemma {:induction false} BaseZero(k: nat)
    ensures Base(0, k) == 0
  {
    if k > 0 {
      BaseZero(k - 1);
    }
  }

  lemma {:induction false} BasePow(j: nat, k: nat)
    ensures Base(Pow2(j), k) == Pow2(j + k)
  {
    if k > 0 {
      BasePow(j, k - 1);
    }
  }

  lemma {:induction false} BaseNext(a: nat, k: nat)
    ensures Base(a + 1, k) == Base(a, k) + Pow2(k)
  {
    if k > 0 {
      BaseNext(a, k - 1);
    }
  }

  lemma {:induction false} BaseMono(a: nat, b: nat, k: nat)
    requires a < b
    ensures Base(a, k) + Pow2(k) <= Base(b, k)
  {
    if k > 0 {
      BaseMono(a, b, k - 1);
    }
  }

  lemma {:induction false} BaseTwice(a: nat, k: nat)
    ensures Base(2 * a, k) == Base(a, k + 1)
  {
    if k > 0 {
      BaseTwice(a, k - 1);
    }
  }

  /** A block of order `k` is exactly a run of 2^k frames starting at a multiple of 2^k. */
  lemma {:induction false} AncRange(p: nat, k: nat)
    ensures Base(Anc(p, k), k) <= p < Base(Anc(p, k), k) + Pow2(k)
  {
    if k > 0 {
      AncRange(p, k - 1);
      var b := Anc(p, k - 1);
      BaseTwice(b / 2, k - 1);
      BaseNext(2 * (b / 2), k - 1);
    }
  }

  lemma AncUnique(p: nat, k: nat, a: nat)
    requires Base(a, k) <= p < Base(a, k) + Pow2(k)
    ensures Anc(p, k) == a
  {
    AncRange(p, k);
    if a < Anc(p, k) {
      BaseMono(a, Anc(p, k), k);
    } else if Anc(p, k) < a {
      BaseMono(Anc(p, k), a, k);
    }
  }

  lemma AncOfBase(a: nat, k: nat)
    ensures Anc(Base(a, k), k) == a && IsHead(Base(a, k), k)
  {
    AncUnique(Base(a, k), k, a);
  }

  /** Frames in one block are in one larger block. */
  lemma {:induction false} AncCompose(p: nat, j: nat, k: nat)
    ensures Anc(p, j + k) == Anc(Anc(p, j), k)
  {
    if k > 0 {
      AncCompose(p, j, k - 1);
    }
  }

  lemma Nested(p: nat, q: nat, j: nat, k: nat)
    requires j <= k && Anc(p, j) == Anc(q, j)
    ensures Anc(p, k) == Anc(q, k)
  {
    AncCompose(p, j, k - j);
    AncCompose(q, j, k - j);
  }

  /** The two halves of a block start at its base and half way along. */
  lemma Halves(a: nat, k: nat)
    ensures Base(a, k + 1) == Base(2 * a, k)
    ensures Base(2 * a + 1, k) == Base(a, k + 1) + Pow2(k)
  {
    BaseTwice(a, k);
    BaseNext(2 * a, k);
  }

  lemma {:induction false} Pow2Mono(j: nat, k: nat)
    requires j <= k
    ensures Pow2(j) <= Pow2(k)
  {
    if j < k {
      Pow2Mono(j, k - 1);
    }
  }

  /** Bitwise exclusive or on naturals. */
  function Xor(a: nat, b: nat): nat
    decreases a + b
  {
    if a == 0 && b == 0 then 0
    else (if a % 2 == b % 2 then 0 else 1) + 2 * Xor(a / 2, b / 2)
  }

  /** The sibling block number. */
  function Sib(a: nat): nat {
    if a % 2 == 0 then a + 1 else a - 1
  }

  lemma {:induction false} XorZero(a: nat)
    ensures Xor(a, 0) == a
  {
    if a > 0 {
      XorZero(a / 2);
    }
  }

  /** XOR with the bit 2^k moves a number to the same offset of the sibling block of order k. */
  lemma {:induction false} XorBit(a: nat, k: nat)
    ensures Xor(a, Pow2(k)) == if Anc(a, k) % 2 == 0 then a + Pow2(k) else a - Pow2(k)
  {
    if k == 0 {
      XorZero(a / 2);
    } else {
      XorBit(a / 2, k - 1);
      AncCompose(a, 1, k - 1);
      assert Anc(a, 1) == Anc(a, 0) / 2;
      AncRange(a / 2, k - 1);
    }
  }

  /** Flipping bit k of a block head of order k gives the head of its sibling. */
  lemma XorHead(p: nat, k: nat)
    requires IsHead(p, k)
    ensures Xor(p, Pow2(k)) == Base(Sib(Anc(p, k)), k)
  {
    var a := Anc(p, k);
    XorBit(p, k);
    BaseNext(a, k);
    if a > 0 {
      BaseNext(a - 1, k);
    }
  }

  /** Scaling both operands by 2^j scales the XOR: the kernel flips bit order + 12 of a byte address. */
  lemma {:induction false} XorScale(a: nat, b: nat, j: nat)
    ensures Xor(Base(a, j), Base(b, j)) == Base(Xor(a, b), j)
  {
    if j > 0 {
      XorScale(a, b, j - 1);
    }
  }
}
