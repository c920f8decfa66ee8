/** The single steps of splitting, taking, releasing and merging a chunk, as functions on pool
    states, and the invariant each one keeps. */
module BuddySteps {
  import opened Common
  import opened Blocks
  import opened BuddyState

  function Unlist(s: PoolState, h: nat, k: nat): PoolState
    requires k < |s.lists| == |s.nrFree| && s.nrFree[k] > 0
  {
    s.(lists := s.lists[k := Remove(s.lists[k], h)], nrFree := s.nrFree[k := s.nrFree[k] - 1])
  }

  function Enlist(s: PoolState, h: nat, k: nat): PoolState
    requires k < |s.lists| == |s.nrFree|
  {
    s.(lists := s.lists[k := [h] + s.lists[k]], nrFree := s.nrFree[k := s.nrFree[k] + 1])
  }

  /** The loose chunk: (h, k) is a free chunk, and everything is in order except that the list entry
      of `h` may be missing (when `skip == h`) and that its sibling may be free too. */
  ghost predicate Loose(s: PoolState, h: nat, k: nat, skip: int) {
    && |s.m.used| == |s.m.order| && s.m.Uniform() && s.m.FreeAt(h, k) && IsHead(h, k)
    && (skip == -1 || skip == h)
    && s.ListedExcept(skip) && s.m.CoalescedExcept(h)
  }

  /** The same frames are free, and the same chunks are outstanding. */
  ghost predicate SameFrames(s: Meta, t: Meta) {
    && t.lo == s.lo && |t.order| == |s.order| && |t.used| == |s.used|
    && (forall p: nat :: t.Free(p) <==> s.Free(p))
    && (forall p: nat, k: nat :: t.UsedAt(p, k) <==> s.UsedAt(p, k))
  }

  /** The block of a chunk is that chunk. */
  lemma BlockIn(s: Meta, h: nat, k: nat)
    requires s.Uniform() && (s.FreeAt(h, k) || s.UsedAt(h, k))
    ensures Enclosed(s, Anc(h, k), k)
    ensures forall p: nat, j: nat :: Anc(p, k) == Anc(h, k) ==>
              && (s.FreeAt(p, j) <==> s.FreeAt(h, k) && j == k)
              && (s.UsedAt(p, j) <==> s.UsedAt(h, k) && j == k)
    ensures forall p: nat :: Anc(p, k) == Anc(h, k) ==> s.Free(p) == s.FreeAt(h, k)
  {
    forall p: nat | Anc(p, k) == Anc(h, k)
      ensures s.In(p) && s.Free(p) == s.FreeAt(h, k)
      ensures forall j: nat :: s.FreeAt(p, j) <==> s.FreeAt(h, k) && j == k
      ensures forall j: nat :: s.UsedAt(p, j) <==> s.UsedAt(h, k) && j == k
    {
      assert s.FreeAt(h, k) ==> s.FreeAt(p, k);
      assert s.UsedAt(h, k) ==> s.UsedAt(p, k);
    }
  }

  /** A head of order k inside the block of a head of the same order is that head. */
  lemma OneHead(p: nat, h: nat, k: nat)
    requires IsHead(p, k) && IsHead(h, k) && Anc(p, k) == Anc(h, k)
    ensures p == h
  {
  }

  /** Retagging one block touches a pair of siblings below its order either in both halves or in none. */
  lemma RetagPair(b: nat, j: nat, k: nat)
    requires j < k
    ensures Anc(Base(b, j), k) == Anc(Base(Sib(b), j), k)
  {
    AncOfBase(b, j);
    AncOfBase(Sib(b), j);
    assert Anc(Base(b, j), j + 1) == b / 2;
    assert Anc(Base(Sib(b), j), j + 1) == Sib(b) / 2;
    Nested(Base(b, j), Base(Sib(b), j), j + 1, k);
  }

  lemma SibSib(c: nat, k: nat)
    ensures Sib(Sib(c)) == c && Anc(Base(c, k), k) == c && Anc(Base(Sib(c), k), k) == Sib(c)
  {
    AncOfBase(c, k);
    AncOfBase(Sib(c), k);
  }

  // ------------------------------------------------------------------------------- allocation

  function SplitMeta(m: Meta, h: nat, k: nat): (r: Meta)
    requires 0 < k && |m.used| == |m.order|
  {
    m.Mark(h, k - 1, false).Mark(h + Pow2(k - 1), k - 1, false)
  }

  function SplitOnce(s: PoolState, h: nat, k: nat): PoolState
    requires 0 < k < |s.lists| == |s.nrFree| && s.nrFree[k] > 0 && |s.m.used| == |s.m.order|
  {
    Enlist(Enlist(Unlist(s.(m := SplitMeta(s.m, h, k)), h, k), h, k - 1), h + Pow2(k - 1), k - 1)
  }

  lemma SplitRetags(s: Meta, h: nat, k: nat)
    requires |s.used| == |s.order| && Enclosed(s, Anc(h, k), k) && IsHead(h, k) && k > 0
    ensures Retagged(s, SplitMeta(s, h, k), Anc(h, k), k, k - 1, false)
  {
    Halves(Anc(h, k), k - 1);
    MarkHalves(s, h, h + Pow2(k - 1), Anc(h, k), k);
  }

  lemma MarkHalves(s: Meta, h: nat, h2: nat, a: nat, k: nat)
    requires |s.used| == |s.order| && Enclosed(s, a, k) && k > 0 && h == Base(2 * a, k - 1)
             && h2 == Base(2 * a + 1, k - 1)
    ensures Retagged(s, s.Mark(h, k - 1, false).Mark(h2, k - 1, false), a, k, k - 1, false)
  {
    var m := s.Mark(h, k - 1, false);
    MarkBlock(s, h, k - 1, 2 * a, false);
    MarkBlock(m, h2, k - 1, 2 * a + 1, false);
    RetagHalves(s, m, m.Mark(h2, k - 1, false), a, k);
  }

  /** Marking both halves of a block retags it. */
  lemma RetagHalves(s: Meta, m: Meta, t: Meta, a: nat, k: nat)
    requires k > 0 && Enclosed(s, a, k) && MarkedBlock(s, m, 2 * a, k - 1, false)
             && MarkedBlock(m, t, 2 * a + 1, k - 1, false)
    ensures Retagged(s, t, a, k, k - 1, false)
  {
    forall p: nat
      ensures Anc(p, k) == a <==> Anc(p, k - 1) == 2 * a || Anc(p, k - 1) == 2 * a + 1
      ensures Anc(p, k) == a ==> s.In(p)
      ensures m.In(p) == s.In(p)
    {
    }
  }

  lemma SplitHeads(h: nat, k: nat, p: nat)
    requires IsHead(h, k) && k > 0
    ensures IsHead(h, k - 1) && IsHead(h + Pow2(k - 1), k - 1)
    ensures Anc(h, k - 1) == 2 * Anc(h, k) && Anc(h + Pow2(k - 1), k - 1) == 2 * Anc(h, k) + 1
    ensures Anc(h + Pow2(k - 1), k) == Anc(h, k)
    ensures IsHead(p, k - 1) && Anc(p, k) == Anc(h, k) ==> p == h || p == h + Pow2(k - 1)
  {
    var a := Anc(h, k);
    Halves(a, k - 1);
    AncOfBase(2 * a, k - 1);
    AncOfBase(2 * a + 1, k - 1);
  }

  lemma SplitOnceLoose(s: PoolState, h: nat, k: nat)
    requires Loose(s, h, k, -1) && 0 < k
    ensures s.nrFree[k] > 0
    ensures Loose(SplitOnce(s, h, k), h, k - 1, -1) && SameFrames(s.m, SplitOnce(s, h, k).m)
  {
    assert h in s.lists[k];
    var t := SplitOnce(s, h, k);
    BlockIn(s.m, h, k);
    SplitRetags(s.m, h, k);
    RetagUniform(s.m, t.m, Anc(h, k), k, k - 1, false);
    SplitHeads(h, k, h);
    SplitListed(s, h, k);
    SplitCoalesced(s.m, t.m, h, k);
  }

  lemma SplitListed(s: PoolState, h: nat, k: nat)
    requires Loose(s, h, k, -1) && 0 < k && s.nrFree[k] > 0
    ensures SplitOnce(s, h, k).ListedExcept(-1)
  {
    var t := SplitOnce(s, h, k);
    var h2 := h + Pow2(k - 1);
    BlockIn(s.m, h, k);
    SplitRetags(s.m, h, k);
    SplitHeads(h, k, h);
    Removed(s.lists[k], h);
    assert h in s.lists[k];
    assert !s.m.FreeAt(h, k - 1) && !s.m.FreeAt(h2, k - 1);
    assert t.lists[k - 1] == [h2] + ([h] + s.lists[k - 1]);
    assert NoDup(t.lists[k - 1]);
    forall j: nat, p: nat | j < MAX_ORDER
      ensures p in t.lists[j] <==> t.m.FreeAt(p, j) && IsHead(p, j)
    {
      SplitHeads(h, k, p);
      assert p in s.lists[j] <==> s.m.FreeAt(p, j) && IsHead(p, j);
      if j == k && Anc(p, k) == Anc(h, k) && IsHead(p, k) {
        OneHead(p, h, k);
      }
    }
  }

  lemma SplitCoalesced(s: Meta, t: Meta, h: nat, k: nat)
    requires 0 < k && IsHead(h, k) && Retagged(s, t, Anc(h, k), k, k - 1, false) && s.CoalescedExcept(h)
    ensures t.CoalescedExcept(h)
  {
    forall b: nat, j: nat | j + 1 < MAX_ORDER && t.FreeChunk(b, j) && t.FreeChunk(Sib(b), j)
      ensures h == Base(b, j) || h == Base(Sib(b), j)
    {
      if Anc(Base(b, j), k) == Anc(h, k) || Anc(Base(Sib(b), j), k) == Anc(h, k) {
        SplitPair(h, k, b);
      } else {
        assert s.FreeChunk(b, j) && s.FreeChunk(Sib(b), j);
      }
    }
  }

  /** Siblings of order k - 1 inside a block of order k are its two halves. */
  lemma SplitPair(h: nat, k: nat, b: nat)
    requires 0 < k && IsHead(h, k)
    requires Anc(Base(b, k - 1), k) == Anc(h, k) || Anc(Base(Sib(b), k - 1), k) == Anc(h, k)
    ensures h == Base(b, k - 1) || h == Base(Sib(b), k - 1)
  {
    AncOfBase(b, k - 1);
    AncOfBase(Sib(b), k - 1);
    RetagPair(b, k - 1, k);
    SplitHeads(h, k, Base(b, k - 1));
    SplitHeads(h, k, Base(Sib(b), k - 1));
  }

  /** The chunk is marked allocated and leaves its list. */
  function Take(s: PoolState, h: nat, k: nat): PoolState
    requires k < |s.lists| == |s.nrFree| && s.nrFree[k] > 0 && |s.m.used| == |s.m.order|
  {
    Unlist(s.(m := s.m.Mark(h, k, true)), h, k)
  }

  /** Block `a` of order `k` goes from free to allocated, and nothing else changes hands. */
  ghost predicate Claims(s: Meta, t: Meta, a: nat, k: nat) {
    && t.lo == s.lo && |t.order| == |s.order| && |t.used| == |s.used|
    && s.AllFree(a, k)
    && (forall p: nat :: t.Free(p) <==> s.Free(p) && Anc(p, k) != a)
    && (forall p: nat, j: nat :: t.UsedAt(p, j) <==> s.UsedAt(p, j) || (j == k && Anc(p, k) == a))
  }

  lemma TakeValid(s: PoolState, h: nat, k: nat)
    requires Loose(s, h, k, -1)
    ensures s.nrFree[k] > 0
    ensures Take(s, h, k).Valid() && Claims(s.m, Take(s, h, k).m, Anc(h, k), k)
  {
    assert h in s.lists[k];
    var t := Take(s, h, k);
    BlockIn(s.m, h, k);
    MarkRetags(s.m, Anc(h, k), k, true);
    RetagUniform(s.m, t.m, Anc(h, k), k, k, true);
    Removed(s.lists[k], h);
    forall j: nat, p: nat | j < MAX_ORDER
      ensures p in t.lists[j] <==> t.m.FreeAt(p, j) && IsHead(p, j)
    {
      assert p in s.lists[j] <==> s.m.FreeAt(p, j) && IsHead(p, j);
      if j == k && IsHead(p, k) && Anc(p, k) == Anc(h, k) {
        OneHead(p, h, k);
      }
    }
    forall b: nat, j: nat | j + 1 < MAX_ORDER && t.m.FreeChunk(b, j) && t.m.FreeChunk(Sib(b), j)
      ensures false
    {
      assert s.m.FreeChunk(b, j) && s.m.FreeChunk(Sib(b), j);
    }
  }

  // ------------------------------------------------------------------------------- release

  /** Block `a` of order `k` goes from allocated to free, and nothing else changes hands. */
  ghost predicate Releases(s: Meta, t: Meta, a: nat, k: nat) {
    && t.lo == s.lo && |t.order| == |s.order| && |t.used| == |s.used|
    && (forall p: nat :: t.Free(p) <==> s.Free(p) || Anc(p, k) == a)
    && (forall p: nat, j: nat :: t.UsedAt(p, j) <==> s.UsedAt(p, j) && Anc(p, k) != a)
  }

  lemma MarkFreeLoose(s: PoolState, h: nat, k: nat)
    requires s.Valid() && s.m.UsedAt(h, k) && IsHead(h, k)
    ensures Loose(s.(m := s.m.Mark(h, k, false)), h, k, h)
    ensures Releases(s.m, s.m.Mark(h, k, false), Anc(h, k), k)
  {
    var t := s.(m := s.m.Mark(h, k, false));
    BlockIn(s.m, h, k);
    MarkRetags(s.m, Anc(h, k), k, false);
    RetagUniform(s.m, t.m, Anc(h, k), k, k, false);
    forall j: nat, p: nat | j < MAX_ORDER
      ensures p in t.lists[j] <==> t.m.FreeAt(p, j) && IsHead(p, j) && p != h
    {
      assert p in s.lists[j] <==> s.m.FreeAt(p, j) && IsHead(p, j);
      if j == k && IsHead(p, k) && Anc(p, k) == Anc(h, k) {
        OneHead(p, h, k);
      }
    }
    forall b: nat, j: nat | j + 1 < MAX_ORDER && t.m.FreeChunk(b, j) && t.m.FreeChunk(Sib(b), j)
      ensures h == Base(b, j) || h == Base(Sib(b), j)
    {
      AncOfBase(b, j);
      AncOfBase(Sib(b), j);
      if Anc(Base(b, j), k) != Anc(h, k) && Anc(Base(Sib(b), j), k) != Anc(h, k) {
        assert s.m.FreeChunk(b, j) && s.m.FreeChunk(Sib(b), j);
      }
    }
  }

  /** The sibling leaves its list, and the doubled chunk at the lower of the two heads is marked free. */
  function MergeOnce(s: PoolState, h: nat, b: nat, j: nat): PoolState
    requires j < |s.lists| == |s.nrFree| && s.nrFree[j] > 0 && |s.m.used| == |s.m.order|
  {
    var t := Unlist(s, b, j);
    t.(m := t.m.Mark(if h < b then h else b, j + 1, false))
  }

  lemma MergeHeads(h: nat, j: nat, p: nat)
    requires IsHead(h, j)
    ensures var b := Base(Sib(Anc(h, j)), j);
            var m := if h < b then h else b;
            && IsHead(b, j) && Anc(b, j) == Sib(Anc(h, j)) && b != h
            && m == Base(Anc(h, j + 1), j + 1) && IsHead(m, j + 1) && Anc(m, j + 1) == Anc(h, j + 1) == Anc(b, j + 1)
            && (IsHead(p, j) && Anc(p, j + 1) == Anc(h, j + 1) ==> p == h || p == b)
  {
    var a := Anc(h, j);
    var b := Base(Sib(a), j);
    AncOfBase(Sib(a), j);
    Halves(a / 2, j);
    AncOfBase(a / 2, j + 1);
    AncOfBase(2 * (a / 2), j);
    assert Anc(h, j + 1) == a / 2;
    assert Anc(b, j + 1) == Sib(a) / 2 == a / 2;
  }

  /** After a merge the doubled block is one free chunk; before it, it was two free halves. */
  lemma MergeRetags(s: Meta, h: nat, j: nat)
    requires |s.used| == |s.order| && s.Uniform() && IsHead(h, j) && s.FreeAt(h, j) && s.FreeChunk(Sib(Anc(h, j)), j)
    ensures Retagged(s, s.Mark(Base(Anc(h, j + 1), j + 1), j + 1, false), Anc(h, j + 1), j + 1, j + 1, false)
    ensures Enclosed(s, Anc(h, j + 1), j + 1)
    ensures forall p: nat :: Anc(p, j + 1) == Anc(h, j + 1) ==> s.Free(p)
    ensures forall p: nat, i: nat :: Anc(p, j + 1) == Anc(h, j + 1) ==> (s.FreeAt(p, i) <==> i == j) && !s.UsedAt(p, i)
  {
    var b := Base(Sib(Anc(h, j)), j);
    MergeHeads(h, j, h);
    BlockIn(s, h, j);
    BlockIn(s, b, j);
    forall p: nat | Anc(p, j + 1) == Anc(h, j + 1)
      ensures s.Free(p) && s.In(p)
      ensures forall i: nat :: (s.FreeAt(p, i) <==> i == j) && !s.UsedAt(p, i)
    {
      assert Anc(p, j) == Anc(h, j) || Anc(p, j) == Anc(b, j);
      assert s.FreeAt(p, j);
    }
    MarkRetags(s, Anc(h, j + 1), j + 1, false);
  }

  lemma MergeOnceLoose(s: PoolState, h: nat, j: nat)
    requires Loose(s, h, j, h) && j + 1 < MAX_ORDER && s.m.FreeChunk(Sib(Anc(h, j)), j)
    ensures s.nrFree[j] > 0
    ensures var m := Base(Anc(h, j + 1), j + 1);
            var t := MergeOnce(s, h, Base(Sib(Anc(h, j)), j), j);
            Loose(t, m, j + 1, m) && SameFrames(s.m, t.m)
  {
    var b := Base(Sib(Anc(h, j)), j);
    MergeHeads(h, j, h);
    assert b in s.lists[j];
    var m := Base(Anc(h, j + 1), j + 1);
    var t := MergeOnce(s, h, b, j);
    MergeRetags(s.m, h, j);
    RetagUniform(s.m, t.m, Anc(h, j + 1), j + 1, j + 1, false);
    MergeListed(s, h, j);
    MergeCoalesced(s.m, t.m, h, j);
  }

  lemma MergeCoalesced(s: Meta, t: Meta, h: nat, j: nat)
    requires IsHead(h, j) && Retagged(s, t, Anc(h, j + 1), j + 1, j + 1, false) && s.CoalescedExcept(h)
    ensures t.CoalescedExcept(Base(Anc(h, j + 1), j + 1))
  {
    forall c: nat, k: nat | k + 1 < MAX_ORDER && t.FreeChunk(c, k) && t.FreeChunk(Sib(c), k)
      ensures Base(Anc(h, j + 1), j + 1) == Base(c, k) || Base(Anc(h, j + 1), j + 1) == Base(Sib(c), k)
    {
      SibSib(c, k);
      assert Anc(Base(c, k), j + 1) != Anc(h, j + 1) && Anc(Base(Sib(c), k), j + 1) != Anc(h, j + 1)
             ==> s.FreeChunk(c, k) && s.FreeChunk(Sib(c), k);
    }
  }

  lemma MergeListed(s: PoolState, h: nat, j: nat)
    requires Loose(s, h, j, h) && j + 1 < MAX_ORDER && s.m.FreeChunk(Sib(Anc(h, j)), j) && s.nrFree[j] > 0
    ensures MergeOnce(s, h, Base(Sib(Anc(h, j)), j), j).ListedExcept(Base(Anc(h, j + 1), j + 1))
  {
    var b := Base(Sib(Anc(h, j)), j);
    var m := Base(Anc(h, j + 1), j + 1);
    var t := MergeOnce(s, h, b, j);
    MergeHeads(h, j, h);
    MergeRetags(s.m, h, j);
    Removed(s.lists[j], b);
    assert b in s.lists[j];
    forall k: nat, p: nat | k < MAX_ORDER
      ensures p in t.lists[k] <==> t.m.FreeAt(p, k) && IsHead(p, k) && p != m
    {
      assert p in s.lists[k] <==> s.m.FreeAt(p, k) && IsHead(p, k) && p != h;
      MergeHeads(h, j, p);
      if k == j + 1 && Anc(p, j + 1) == Anc(h, j + 1) && IsHead(p, k) {
        OneHead(p, m, j + 1);
      }
    }
  }

  /** A loose chunk that cannot merge any further goes to the front of its list. */
  lemma EnlistValid(s: PoolState, h: nat, j: nat)
    requires Loose(s, h, j, h)
    requires j + 1 == MAX_ORDER || !s.m.FreeChunk(Sib(Anc(h, j)), j)
    ensures Enlist(s, h, j).Valid()
  {
    var t := Enlist(s, h, j);
    assert NoDup(t.lists[j]);
    forall k: nat, p: nat | k < MAX_ORDER
      ensures p in t.lists[k] <==> t.m.FreeAt(p, k) && IsHead(p, k)
    {
      assert p in s.lists[k] <==> s.m.FreeAt(p, k) && IsHead(p, k) && p != h;
    }
    forall c: nat, k: nat | k + 1 < MAX_ORDER && t.m.FreeChunk(c, k) && t.m.FreeChunk(Sib(c), k)
      ensures false
    {
      SibSib(c, k);
    }
  }
}
