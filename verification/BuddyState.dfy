/** The state of one physical memory pool as a value, and what its page metadata
    and free lists say about which memory is free.

    A page is denoted by its absolute frame number (its address divided by the
    page size); `lo` is the first frame of the pool, and need not be aligned to
    anything. */
module BuddyState {
  import opened Common
  import opened Blocks

  const MAX_ORDER: nat := 14

  /** The array of `struct page`: the order and the allocated flag of each frame from `lo` on. */
  datatype Meta = Meta(lo: nat, order: seq<nat>, used: seq<bool>)
  {
    predicate In(p: nat) {
      |used| == |order| && lo <= p < lo + |order|
    }

    predicate Free(p: nat) {
      In(p) && !used[p - lo]
    }

    /** Frame `p` belongs to a free chunk of order `k`. */
    predicate FreeAt(p: nat, k: nat) {
      In(p) && !used[p - lo] && order[p - lo] == k
    }

    /** Frame `p` belongs to an allocated chunk of order `k`. */
    predicate UsedAt(p: nat, k: nat) {
      In(p) && used[p - lo] && order[p - lo] == k
    }

    /** Block `a` of order `k` is a chunk of the free pool. */
    predicate FreeChunk(a: nat, k: nat) {
      FreeAt(Base(a, k), k)
    }

    /** Block `a` of order `k` is an outstanding chunk. */
    predicate UsedChunk(a: nat, k: nat) {
      UsedAt(Base(a, k), k)
    }

    /** The aligned run of 2^k frames with block number `a` lies in the pool and is free. */
    ghost predicate AllFree(a: nat, k: nat) {
      forall q: nat :: Anc(q, k) == a ==> Free(q)
    }

    /** The metadata cuts the pool into aligned chunks: the frames of the block that a frame's own
        order singles out all carry the same metadata. */
    ghost predicate Uniform() {
      && (forall p: nat, k: nat :: FreeAt(p, k) || UsedAt(p, k) ==> k < MAX_ORDER)
      && (forall p: nat, q: nat, k: nat {:trigger FreeAt(p, k), FreeAt(q, k)} ::
            FreeAt(p, k) && Anc(q, k) == Anc(p, k) ==> FreeAt(q, k))
      && (forall p: nat, q: nat, k: nat {:trigger UsedAt(p, k), UsedAt(q, k)} ::
            UsedAt(p, k) && Anc(q, k) == Anc(p, k) ==> UsedAt(q, k))
    }

    /** No two free siblings below the top order, apart from pairs that contain the chunk at `skip`. */
    ghost predicate CoalescedExcept(skip: int) {
      forall a: nat, k: nat :: k + 1 < MAX_ORDER && FreeChunk(a, k) && FreeChunk(Sib(a), k) ==>
          skip == Base(a, k) || skip == Base(Sib(a), k)
    }

    /** Gives every frame of the run [h, h + 2^k) the same metadata. */
    function Mark(h: nat, k: nat, u: bool): (r: Meta)
      requires |used| == |order|
    {
      this.(order := seq(|order|, i requires 0 <= i < |order| =>
                           if h <= lo + i < h + Pow2(k) then k else order[i]),
            used := seq(|used|, i requires 0 <= i < |used| =>
                          if h <= lo + i < h + Pow2(k) then u else used[i]))
    }
  }

  datatype PoolState = PoolState(m: Meta, lists: seq<seq<nat>>, nrFree: seq<nat>)
  {
    /** Each free list holds exactly the heads of the free chunks of its order, once each, apart
        from `skip`; the counters are the list lengths. */
    ghost predicate ListedExcept(skip: int) {
      && |lists| == |nrFree| == MAX_ORDER
      && (forall k :: 0 <= k < MAX_ORDER ==> NoDup(lists[k]) && nrFree[k] == |lists[k]|)
      && (forall k, p: nat :: 0 <= k < MAX_ORDER ==>
            (p in lists[k] <==> m.FreeAt(p, k) && IsHead(p, k) && p != skip))
    }

    ghost predicate Valid() {
      |m.used| == |m.order| && m.Uniform() && ListedExcept(-1) && m.CoalescedExcept(-1)
    }
  }

  /** Block `a` of order `k` lies in the pool and no chunk sticks out of it. */
  ghost predicate Enclosed(s: Meta, a: nat, k: nat) {
    && (forall p: nat :: Anc(p, k) == a ==> s.In(p))
    && (forall p: nat, j: nat :: Anc(p, k) == a && (s.FreeAt(p, j) || s.UsedAt(p, j)) ==> j <= k)
  }

  /** State `t` agrees with `s` outside block `a` of order `k`, whose frames all get metadata (i, u). */
  ghost predicate Retagged(s: Meta, t: Meta, a: nat, k: nat, i: nat, u: bool) {
    && t.lo == s.lo && |t.order| == |s.order| == |s.used| == |t.used|
    && (forall p: nat :: t.Free(p) <==> if Anc(p, k) == a then !u else s.Free(p))
    && (forall p: nat, j: nat :: t.FreeAt(p, j) <==> if Anc(p, k) == a then !u && j == i else s.FreeAt(p, j))
    && (forall p: nat, j: nat :: t.UsedAt(p, j) <==> if Anc(p, k) == a then u && j == i else s.UsedAt(p, j))
  }

  lemma RetagUniform(s: Meta, t: Meta, a: nat, k: nat, i: nat, u: bool)
    requires s.Uniform() && Enclosed(s, a, k) && Retagged(s, t, a, k, i, u) && i <= k && i < MAX_ORDER
    ensures t.Uniform()
  {
    forall p: nat, q: nat, j: nat | t.FreeAt(p, j) && Anc(q, j) == Anc(p, j)
      ensures t.FreeAt(q, j)
    {
      RetagSame(s, t, a, k, i, u, p, q, j);
    }
    forall p: nat, q: nat, j: nat | t.UsedAt(p, j) && Anc(q, j) == Anc(p, j)
      ensures t.UsedAt(q, j)
    {
      RetagSame(s, t, a, k, i, u, p, q, j);
    }
  }

  lemma RetagSame(s: Meta, t: Meta, a: nat, k: nat, i: nat, u: bool, p: nat, q: nat, j: nat)
    requires s.Uniform() && Enclosed(s, a, k) && Retagged(s, t, a, k, i, u) && i <= k
    requires (t.FreeAt(p, j) || t.UsedAt(p, j)) && Anc(q, j) == Anc(p, j)
    ensures t.FreeAt(q, j) == t.FreeAt(p, j) && t.UsedAt(q, j) == t.UsedAt(p, j)
  {
    if Anc(p, k) == a {
      Nested(p, q, j, k);
    } else {
      assert s.FreeAt(p, j) ==> s.FreeAt(q, j);
      assert s.UsedAt(p, j) ==> s.UsedAt(q, j);
      if Anc(q, k) == a {
        Nested(p, q, j, k);
      }
    }
  }

  /** The frames of block `a` that are in the pool all get metadata (k, u), and no other frame changes. */
  ghost predicate MarkedBlock(s: Meta, t: Meta, a: nat, k: nat, u: bool) {
    && t.lo == s.lo && |t.order| == |s.order| == |s.used| == |t.used|
    && (forall p: nat :: t.Free(p) <==> if Anc(p, k) == a && s.In(p) then !u else s.Free(p))
    && (forall p: nat, j: nat :: t.FreeAt(p, j) <==> if Anc(p, k) == a && s.In(p) then !u && j == k else s.FreeAt(p, j))
    && (forall p: nat, j: nat :: t.UsedAt(p, j) <==> if Anc(p, k) == a && s.In(p) then u && j == k else s.UsedAt(p, j))
  }

  lemma MarkBlock(s: Meta, h: nat, k: nat, a: nat, u: bool)
    requires |s.used| == |s.order| && h == Base(a, k)
    ensures MarkedBlock(s, s.Mark(h, k, u), a, k, u)
  {
    var t := s.Mark(h, k, u);
    forall p: nat
      ensures t.In(p) == s.In(p)
      ensures s.In(p) ==> t.order[p - s.lo] == (if Anc(p, k) == a then k else s.order[p - s.lo])
                          && t.used[p - s.lo] == (if Anc(p, k) == a then u else s.used[p - s.lo])
    {
      BlockRange(p, k, a);
    }
  }

  lemma MarkRetags(s: Meta, a: nat, k: nat, u: bool)
    requires |s.used| == |s.order| && Enclosed(s, a, k)
    ensures Retagged(s, s.Mark(Base(a, k), k, u), a, k, k, u)
  {
    MarkBlock(s, Base(a, k), k, a, u);
  }

  lemma BlockRange(p: nat, k: nat, a: nat)
    ensures Anc(p, k) == a <==> Base(a, k) <= p < Base(a, k) + Pow2(k)
  {
    AncRange(p, k);
    if Base(a, k) <= p < Base(a, k) + Pow2(k) {
      AncUnique(p, k, a);
    }
  }

  // ---------------------------------------------------------------- completeness and canonicity

  /** Every aligned free run lies inside one free chunk of at least its size. */
  lemma {:induction false} RunInChunk(s: Meta, a: nat, k: nat) returns (j: nat)
    requires s.Uniform() && s.CoalescedExcept(-1) && k < MAX_ORDER && s.AllFree(a, k)
    ensures k <= j < MAX_ORDER && s.FreeChunk(Anc(a, j - k), j)
    decreases k
  {
    if k == 0 {
      j := FrameInChunk(s, a);
    } else {
      HalfFree(s, a, k);
      j := RunInChunk(s, 2 * a, k - 1);
      if j == k - 1 {
        j := RunInChunk(s, 2 * a + 1, k - 1);
        NotBothFree(s, 2 * a, k - 1);
        AncStep(2 * a + 1, j - k + 1);
      } else {
        AncStep(2 * a, j - k + 1);
      }
    }
  }

  lemma FrameInChunk(s: Meta, a: nat) returns (j: nat)
    requires s.Uniform() && s.AllFree(a, 0)
    ensures j < MAX_ORDER && s.FreeChunk(Anc(a, j), j)
  {
    AncOfBase(a, 0);
    j := s.order[Base(a, 0) - s.lo];
    FreeFrameChunk(s, a, j);
  }

  lemma NotBothFree(s: Meta, a: nat, k: nat)
    requires s.CoalescedExcept(-1) && k + 1 < MAX_ORDER && a % 2 == 0 && s.FreeChunk(a, k)
    ensures !s.FreeChunk(a + 1, k)
  {
    assert Sib(a) == a + 1;
  }

  lemma AncStep(a: nat, k: nat)
    requires k > 0
    ensures Anc(a, k) == Anc(a / 2, k - 1)
  {
    AncCompose(a, 1, k - 1);
    assert Anc(a, 1) == Anc(a, 0) / 2;
  }

  lemma FreeFrameChunk(s: Meta, p: nat, j: nat)
    requires s.Uniform() && s.FreeAt(p, j)
    ensures s.FreeChunk(Anc(p, j), j)
  {
    AncOfBase(Anc(p, j), j);
  }

  lemma HalfFree(s: Meta, a: nat, k: nat)
    requires k > 0 && s.AllFree(a, k)
    ensures s.AllFree(2 * a, k - 1) && s.AllFree(2 * a + 1, k - 1)
  {
    forall q: nat | Anc(q, k - 1) == 2 * a || Anc(q, k - 1) == 2 * a + 1
      ensures s.Free(q)
    {
      assert Anc(q, k) == a;
    }
  }

  lemma ChunkAllFree(s: Meta, a: nat, k: nat)
    requires s.Uniform() && s.FreeChunk(a, k)
    ensures s.AllFree(a, k) && k < MAX_ORDER
    ensures forall q: nat :: Anc(q, k) == a ==> s.FreeAt(q, k)
  {
    AncOfBase(a, k);
    forall q: nat | Anc(q, k) == a
      ensures s.FreeAt(q, k) && s.Free(q)
    {
      assert s.FreeAt(Base(a, k), k);
    }
  }

  /** The free chunks are exactly the maximal aligned free runs, so they depend on nothing but the
      set of free frames. */
  lemma Canonical(s: Meta, a: nat, k: nat)
    requires s.Uniform() && s.CoalescedExcept(-1)
    ensures s.FreeChunk(a, k) <==>
            k < MAX_ORDER && s.AllFree(a, k) && (k + 1 == MAX_ORDER || !s.AllFree(a / 2, k + 1))
  {
    AncOfBase(a, k);
    if s.FreeChunk(a, k) {
      ChunkAllFree(s, a, k);
      if k + 1 < MAX_ORDER && s.AllFree(a / 2, k + 1) {
        var j := RunInChunk(s, a / 2, k + 1);
        InsideChunk(s, Base(a, k), k + 1, j);
        assert false;
      }
    } else if k < MAX_ORDER && s.AllFree(a, k) {
      var j := RunInChunk(s, a, k);
      if k + 1 < MAX_ORDER {
        forall q: nat | Anc(q, k + 1) == a / 2
          ensures s.Free(q)
        {
          AncStep(a, j - k);
          InsideChunk(s, q, k + 1, j);
        }
      }
    }
  }

  lemma InsideChunk(s: Meta, q: nat, i: nat, j: nat)
    requires s.Uniform() && i <= j && s.FreeChunk(Anc(Anc(q, i), j - i), j)
    ensures s.FreeAt(q, j)
  {
    AncCompose(q, i, j - i);
    ChunkAllFree(s, Anc(q, j), j);
  }

  /** Two pool states with the same free frames have the same free chunks on the same lists. */
  lemma SameFramesSameLists(s: PoolState, t: PoolState)
    requires s.Valid() && t.Valid()
    requires forall p: nat :: s.m.Free(p) <==> t.m.Free(p)
    ensures forall a: nat, k: nat :: s.m.FreeChunk(a, k) <==> t.m.FreeChunk(a, k)
    ensures forall k :: 0 <= k < MAX_ORDER ==>
              multiset(s.lists[k]) == multiset(t.lists[k]) && s.nrFree[k] == t.nrFree[k]
  {
    forall a: nat, k: nat
      ensures s.m.FreeChunk(a, k) <==> t.m.FreeChunk(a, k)
    {
      Canonical(s.m, a, k);
      Canonical(t.m, a, k);
      assert s.m.AllFree(a, k) <==> t.m.AllFree(a, k);
      assert s.m.AllFree(a / 2, k + 1) <==> t.m.AllFree(a / 2, k + 1);
    }
    forall k | 0 <= k < MAX_ORDER
      ensures multiset(s.lists[k]) == multiset(t.lists[k]) && s.nrFree[k] == t.nrFree[k]
    {
      forall p: nat
        ensures p in s.lists[k] <==> p in t.lists[k]
      {
        assert IsHead(p, k) ==> (s.m.FreeAt(p, k) <==> s.m.FreeChunk(Anc(p, k), k));
        assert IsHead(p, k) ==> (t.m.FreeAt(p, k) <==> t.m.FreeChunk(Anc(p, k), k));
      }
      NoDupSameElements(s.lists[k], t.lists[k]);
    }
  }

  lemma NoDupCount<T>(s: seq<T>, x: T)
    requires NoDup(s)
    ensures multiset(s)[x] == if x in s then 1 else 0
  {
    if s != [] {
      assert s == [s[0]] + s[1..];
      NoDupCount(s[1..], x);
    }
  }

  lemma NoDupSameElements<T>(s: seq<T>, t: seq<T>)
    requires NoDup(s) && NoDup(t) && forall x :: x in s <==> x in t
    ensures multiset(s) == multiset(t) && |s| == |t|
  {
    forall x
      ensures multiset(s)[x] == multiset(t)[x]
    {
      NoDupCount(s, x);
      NoDupCount(t, x);
    }
    assert multiset(s) == multiset(t);
    assert |multiset(s)| == |s| && |multiset(t)| == |t|;
  }
}
