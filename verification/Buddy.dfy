/** The buddy allocator of one physical memory pool, updating page metadata and free lists in place. */
module Buddy {
  import opened Common
  import opened Blocks
  import opened BuddyState
  import opened BuddySteps

  const PAGE_SIZE_ORDER: nat := 12

  // --------------------------------------------------------------------- amounts of free memory

  ghost function FreeFrames(m: Meta): set<nat> {
    set p: nat | m.lo <= p < m.lo + |m.order| && m.Free(p)
  }

  ghost function FramesOfOrder(m: Meta, k: nat): set<nat> {
    set p: nat | m.lo <= p < m.lo + |m.order| && m.FreeAt(p, k)
  }

  /** The run of n frames from lo on. */
  ghost function Span(lo: nat, n: nat): (r: set<nat>)
    ensures |r| == n
    ensures forall p: nat :: p in r <==> lo <= p < lo + n
  {
    if n == 0 then {} else Span(lo, n - 1) + {lo + n - 1}
  }

  ghost function Covered(l: seq<nat>, k: nat, lo: nat, hi: nat): set<nat> {
    set p: nat | lo <= p < hi && Base(Anc(p, k), k) in l
  }

  lemma {:induction false} CoveredSize(l: seq<nat>, k: nat, lo: nat, hi: nat)
    requires NoDup(l) && forall h :: h in l ==> IsHead(h, k) && lo <= h && h + Pow2(k) <= hi
    ensures |Covered(l, k, lo, hi)| == Base(|l|, k)
  {
    if l == [] {
      BaseZero(k);
      assert Covered(l, k, lo, hi) == {};
    } else {
      assert l[0] in l && forall x :: x in l[1..] ==> x in l;
      CoveredSize(l[1..], k, lo, hi);
      BaseNext(|l| - 1, k);
      CoveredSplit(l, k, lo, hi);
    }
  }

  lemma CoveredSplit(l: seq<nat>, k: nat, lo: nat, hi: nat)
    requires l != [] && l[0] !in l[1..] && IsHead(l[0], k) && lo <= l[0] && l[0] + Pow2(k) <= hi
    ensures |Covered(l, k, lo, hi)| == Pow2(k) + |Covered(l[1..], k, lo, hi)|
  {
    var h := l[0];
    var a, b := Span(h, Pow2(k)), Covered(l[1..], k, lo, hi);
    forall p: nat
      ensures p in Covered(l, k, lo, hi) <==> p in a || p in b
      ensures !(p in a && p in b)
    {
      InRunOf(p, h, k);
      assert Base(Anc(p, k), k) in l <==> Base(Anc(p, k), k) == h || Base(Anc(p, k), k) in l[1..];
    }
    assert Covered(l, k, lo, hi) == a + b && a !! b;
  }

  lemma InRunOf(p: nat, h: nat, k: nat)
    requires IsHead(h, k)
    ensures Base(Anc(p, k), k) == h <==> h <= p < h + Pow2(k)
  {
    AncOfBase(Anc(p, k), k);
    BlockRange(p, k, Anc(h, k));
  }

  lemma {:induction false} BaseIsProduct(a: nat, k: nat)
    ensures Base(a, k) == a * Pow2(k)
  {
    if k > 0 {
      BaseIsProduct(a, k - 1);
    }
  }

  /** The frames of the free chunks of one order. */
  lemma OrderSize(s: PoolState, k: nat)
    requires s.Valid() && k < MAX_ORDER
    ensures |FramesOfOrder(s.m, k)| == Base(s.nrFree[k], k)
  {
    var lo, hi := s.m.lo, s.m.lo + |s.m.order|;
    forall h | h in s.lists[k]
      ensures IsHead(h, k) && lo <= h && h + Pow2(k) <= hi
    {
      AncOfBase(Anc(h, k), k);
      BlockRange(h + Pow2(k) - 1, k, Anc(h, k));
      assert s.m.FreeAt(h, k) && s.m.FreeAt(h + Pow2(k) - 1, k);
    }
    CoveredSize(s.lists[k], k, lo, hi);
    forall p: nat | lo <= p < hi
      ensures Base(Anc(p, k), k) in s.lists[k] <==> s.m.FreeAt(p, k)
    {
      AncOfBase(Anc(p, k), k);
      var h := Base(Anc(p, k), k);
      assert h in s.lists[k] <==> s.m.FreeAt(h, k);
      assert s.m.FreeAt(p, k) ==> s.m.FreeAt(h, k);
      assert s.m.FreeAt(h, k) ==> s.m.FreeAt(p, k);
    }
    assert FramesOfOrder(s.m, k) == Covered(s.lists[k], k, lo, hi);
  }

  ghost function FramesBelow(m: Meta, n: nat): set<nat> {
    set p: nat | m.lo <= p < m.lo + |m.order| && m.Free(p) && m.order[p - m.lo] < n
  }

  lemma FramesBelowStep(m: Meta, n: nat)
    ensures |FramesBelow(m, n + 1)| == |FramesBelow(m, n)| + |FramesOfOrder(m, n)|
    ensures FramesBelow(m, 0) == {}
  {
    assert FramesBelow(m, n + 1) == FramesBelow(m, n) + FramesOfOrder(m, n);
  }

  /** Claiming a block of order k takes exactly 2^k frames out of the free memory, and releasing it puts them back. */
  lemma ClaimSize(s: Meta, t: Meta, a: nat, k: nat)
    requires Claims(s, t, a, k)
    ensures |FreeFrames(s)| == |FreeFrames(t)| + Pow2(k)
  {
    var b := Span(Base(a, k), Pow2(k));
    forall p: nat
      ensures Anc(p, k) == a <==> p in b
    {
      BlockRange(p, k, a);
    }
    assert forall p: nat :: p in b ==> s.Free(p);
    assert FreeFrames(s) == FreeFrames(t) + b;
    assert FreeFrames(t) !! b;
  }

  lemma ReleaseIsClaim(s: Meta, t: Meta, a: nat, k: nat)
    requires Releases(s, t, a, k) && forall p: nat :: Anc(p, k) == a ==> s.UsedAt(p, k)
    ensures Claims(t, s, a, k)
  {
    forall p: nat
      ensures s.Free(p) <==> t.Free(p) && Anc(p, k) != a
    {
      assert Anc(p, k) == a ==> s.UsedAt(p, k);
    }
    forall p: nat, j: nat
      ensures s.UsedAt(p, j) <==> t.UsedAt(p, j) || (j == k && Anc(p, k) == a)
    {
      assert Anc(p, k) == a ==> s.UsedAt(p, k);
    }
  }

  // ------------------------------------------------------------------------- effect on the lists

  /** The chunk at the front of the first non-empty list from order `k` on is split down to order `k`:
      its upper halves become the only entries of the lists in between. */
  ghost predicate FirstFit(s: seq<seq<nat>>, t: seq<seq<nat>>, k: nat, m: nat, h: nat) {
    && |s| == |t| == MAX_ORDER && k <= m < MAX_ORDER
    && (forall j :: k <= j < m ==> s[j] == [])
    && s[m] == [h] + t[m]
    && (forall j :: k <= j < m ==> t[j] == [h + Pow2(j)])
    && (forall j :: 0 <= j < MAX_ORDER && !(k <= j <= m) ==> t[j] == s[j])
  }

  /** As FirstFit, with the target chunk still on the list of order `k`. */
  ghost predicate SplitLists(s: seq<seq<nat>>, t: seq<seq<nat>>, k: nat, m: nat, h: nat) {
    && |s| == |t| == MAX_ORDER && k <= m < MAX_ORDER && s[m] != [] && s[m][0] == h
    && (forall j :: k <= j < m ==> s[j] == [])
    && (k == m ==> t[m] == s[m])
    && (k < m ==> t[m] == s[m][1..] && t[k] == [h + Pow2(k), h])
    && (forall j :: k < j < m ==> t[j] == [h + Pow2(j)])
    && (forall j :: 0 <= j < MAX_ORDER && !(k <= j <= m) ==> t[j] == s[j])
  }

  /** The lists after the chunk at `h` has merged its way up from order `k` to order `j`. */
  function MergedLists(s: seq<seq<nat>>, h: nat, k: nat, j: nat): (r: seq<seq<nat>>)
    requires |s| == MAX_ORDER && k <= j < MAX_ORDER
    ensures |r| == MAX_ORDER
  {
    if j == k then s
    else
      var r := MergedLists(s, h, k, j - 1);
      r[j - 1 := Remove(r[j - 1], Base(Sib(Anc(h, j - 1)), j - 1))]
  }

  lemma SplitListsStep(l: seq<seq<nat>>, s: seq<seq<nat>>, t: seq<seq<nat>>, o: nat, m: nat, h: nat)
    requires SplitLists(l, s, o, m, h) && 0 < o && |t| == MAX_ORDER && l[o - 1] == []
    requires t == s[o := Remove(s[o], h)][o - 1 := [h + Pow2(o - 1)] + ([h] + s[o - 1])]
    ensures SplitLists(l, t, o - 1, m, h)
  {
    if o < m {
      assert s[o][1..] == [h];
      assert Remove(s[o][1..], h) == [];
    }
  }

  lemma SplitThenTake(s: seq<seq<nat>>, t: seq<seq<nat>>, k: nat, m: nat, h: nat)
    requires SplitLists(s, t, k, m, h)
    ensures FirstFit(s, t[k := Remove(t[k], h)], k, m, h)
  {
    if k < m {
      assert t[k][1..] == [h];
      assert Remove(t[k][1..], h) == [];
    }
  }

  // ------------------------------------------------------------------------- steps of the methods

  lemma BuddyAddress(h: nat, k: nat)
    requires IsHead(h, k)
    ensures Xor(h * PAGE_SIZE, Pow2(k + PAGE_SIZE_ORDER)) == Base(Sib(Anc(h, k)), k) * PAGE_SIZE
  {
    XorHead(h, k);
    XorScale(h, Pow2(k), 12);
    PageScale(h);
    PageScale(Xor(h, Pow2(k)));
    BasePow(k, 12);
  }

  lemma PageScale(a: nat)
    ensures Base(a, 12) == a * PAGE_SIZE
  {
    BaseIsProduct(a, 12);
    assert Pow2(12) == PAGE_SIZE;
  }

  lemma HeadRunInPool(m: Meta, h: nat, k: nat)
    requires IsHead(h, k) && Enclosed(m, Anc(h, k), k)
    ensures m.lo <= h && h + Pow2(k) <= m.lo + |m.order|
  {
    BlockRange(h, k, Anc(h, k));
    BlockRange(h + Pow2(k) - 1, k, Anc(h, k));
    assert m.In(h) && m.In(h + Pow2(k) - 1);
  }

  /** A run of order k at the head of a free chunk of order m >= k is free. */
  lemma TakenRunFree(s: PoolState, h: nat, m: nat, k: nat)
    requires s.Valid() && k <= m < MAX_ORDER && h in s.lists[m]
    ensures s.m.AllFree(Anc(h, k), k) && Loose(s, h, m, -1) && s.m.In(h) && s.m.order[h - s.m.lo] == m
  {
    BlockIn(s.m, h, m);
    forall q: nat | Anc(q, k) == Anc(h, k)
      ensures s.m.Free(q)
    {
      Nested(q, h, k, m);
    }
  }

  /** The bytes that one list adds to the total. */
  lemma OrderBytes(s: PoolState, k: nat)
    requires s.Valid() && k < MAX_ORDER
    ensures PAGE_SIZE * |FramesBelow(s.m, k + 1)|
            == PAGE_SIZE * |FramesBelow(s.m, k)| + s.nrFree[k] * (PAGE_SIZE * Pow2(k))
  {
    FramesBelowStep(s.m, k);
    OrderSize(s, k);
    BaseIsProduct(s.nrFree[k], k);
    Regroup(s.nrFree[k], Pow2(k));
  }

  lemma Regroup(n: nat, p: nat)
    ensures n * (PAGE_SIZE * p) == PAGE_SIZE * (n * p)
  {
  }

  lemma AllBelow(m: Meta)
    requires m.Uniform()
    ensures FramesBelow(m, MAX_ORDER) == FreeFrames(m)
  {
    forall p: nat | m.Free(p)
      ensures m.order[p - m.lo] < MAX_ORDER
    {
      assert m.FreeAt(p, m.order[p - m.lo]);
    }
  }

  lemma NothingToTake(s: PoolState, a: nat, k: nat)
    requires s.Valid() && k < MAX_ORDER && forall j :: k <= j < MAX_ORDER ==> s.lists[j] == []
    ensures !s.m.AllFree(a, k)
  {
    if s.m.AllFree(a, k) {
      var j := RunInChunk(s.m, a, k);
      AncOfBase(Anc(a, j - k), j);
    }
  }

  /** Where the search of buddy_get_pages ends: at the first list with a chunk, or past the last list. */
  function SearchEnd(nrFree: seq<nat>, o: nat): (r: nat)
    requires |nrFree| == MAX_ORDER
    ensures o <= r && (r < MAX_ORDER ==> nrFree[r] > 0) && (o <= MAX_ORDER ==> r <= MAX_ORDER)
    ensures forall j :: o <= j < r && j < MAX_ORDER ==> nrFree[j] == 0
    decreases MAX_ORDER - o
  {
    if o >= MAX_ORDER || nrFree[o] > 0 then o else SearchEnd(nrFree, o + 1)
  }

  /** The guard of the source lets the search look at the list past the last one. */
  predicate LooksPast(nrFree: seq<nat>, k: nat)
    requires |nrFree| == MAX_ORDER
  {
    k <= MAX_ORDER && SearchEnd(nrFree, k) == MAX_ORDER
  }

  /** That happens exactly for a request that cannot be met: of order MAX_ORDER, or without a free run of its size. */
  lemma SearchLeaves(s: PoolState, k: nat)
    requires s.Valid()
    ensures LooksPast(s.nrFree, k) <==> k == MAX_ORDER || (k < MAX_ORDER && forall a: nat :: !s.m.AllFree(a, k))
  {
    var m := SearchEnd(s.nrFree, k);
    if k < MAX_ORDER && m < MAX_ORDER {
      var h := s.lists[m][0];
      assert h in s.lists[m];
      TakenRunFree(s, h, m, k);
    } else if k < MAX_ORDER {
      forall a: nat
        ensures !s.m.AllFree(a, k)
      {
        NothingToTake(s, a, k);
      }
    }
  }

  /** A pool of one page that is in use: a request for one page looks past the lists. */
  const FULL_POOL: PoolState := PoolState(Meta(0, [0], [true]), seq(MAX_ORDER, _ => []), seq(MAX_ORDER, _ => 0))

  lemma FullPoolLooksPast()
    ensures FULL_POOL.Valid() && LooksPast(FULL_POOL.nrFree, 0)
  {
    var s := FULL_POOL;
    forall p: nat, q: nat, k: nat | s.m.UsedAt(p, k) && Anc(q, k) == Anc(p, k)
      ensures s.m.UsedAt(q, k)
    {
      assert Anc(q, 0) == q && Anc(p, 0) == p;
    }
    SearchLeaves(s, 0);
    forall a: nat
      ensures !s.m.AllFree(a, 0)
    {
      assert Anc(a, 0) == a && !s.m.Free(a);
    }
  }

  /** What one round of splitting needs and brings about. */
  lemma SplitRound(s0: PoolState, s: PoolState, h: nat, o: nat, k: nat, m: nat)
    requires k < o <= m && Loose(s, h, o, -1) && SameFrames(s0.m, s.m) && SplitLists(s0.lists, s.lists, o, m, h)
    requires forall j :: k <= j < m ==> s0.lists[j] == []
    ensures s.nrFree[o] > 0 && s.m.lo <= h && h + Pow2(o) <= s.m.lo + |s.m.order|
    ensures var t := SplitOnce(s, h, o);
            && s.m.lo <= h < s.m.lo + |t.m.order| && t.m.order[h - s.m.lo] == o - 1
            && Loose(t, h, o - 1, -1) && SameFrames(s0.m, t.m) && SplitLists(s0.lists, t.lists, o - 1, m, h)
  {
    SplitOnceLoose(s, h, o);
    BlockIn(s.m, h, o);
    HeadRunInPool(s.m, h, o);
    var t := SplitOnce(s, h, o);
    SplitListsStep(s0.lists, s.lists, t.lists, o, m, h);
    SameFramesTrans(s0.m, s.m, t.m);
  }

  /** Merging the chunk at `h`, free and of order `k` in `s0`, has come to the chunk at `r` of order `o`. */
  ghost predicate Merging(s0: PoolState, s: PoolState, h: nat, k: nat, r: nat, o: nat) {
    && s.m.lo == s0.m.lo && s.m.lo <= r < s.m.lo + |s.m.order| && s.m.order[r - s.m.lo] == o && k <= o < MAX_ORDER
    && Loose(s, r, o, r) && SameFrames(s0.m, s.m) && r == Base(Anc(h, o), o)
    && |s0.lists| == MAX_ORDER && s.lists == MergedLists(s0.lists, h, k, o)
  }

  /** The chunk at `r` cannot grow: it has the top order, or its sibling is not a free chunk. */
  predicate Stuck(s: PoolState, r: nat, o: nat) {
    o + 1 == MAX_ORDER || !s.m.FreeChunk(Sib(Anc(r, o)), o)
  }

  lemma MergingBegins(s: PoolState, h: nat, k: nat)
    requires Loose(s, h, k, h)
    ensures Merging(s, s, h, k, h, k)
  {
  }

  lemma MergingNext(s0: PoolState, s: PoolState, h: nat, k: nat, r: nat, o: nat, b: nat, r': nat)
    requires Merging(s0, s, h, k, r, o) && o + 1 < MAX_ORDER && b == Base(Sib(Anc(r, o)), o) && s.m.FreeAt(b, o)
    requires r' == if r < b then r else b
    ensures s.nrFree[o] > 0 && s.m.lo <= r' && r' + Pow2(o + 1) <= s.m.lo + |s.m.order|
    ensures Merging(s0, MergeOnce(s, r, b, o), h, k, r', o + 1)
  {
    MergeRound(s, h, r, o);
    var t := MergeOnce(s, r, b, o);
    SameFramesTrans(s0.m, s.m, t.m);
    assert t.m.FreeAt(r', o + 1);
  }

  /** What one round of merging needs and brings about. */
  lemma MergeRound(s: PoolState, h: nat, r: nat, o: nat)
    requires Loose(s, r, o, r) && r == Base(Anc(h, o), o) && o + 1 < MAX_ORDER && s.m.FreeChunk(Sib(Anc(r, o)), o)
    ensures var b := Base(Sib(Anc(r, o)), o);
            var m := if r < b then r else b;
            && s.nrFree[o] > 0 && s.m.lo <= m && m + Pow2(o + 1) <= s.m.lo + |s.m.order|
            && m == Base(Anc(h, o + 1), o + 1) && Sib(Anc(r, o)) == Sib(Anc(h, o))
            && Loose(MergeOnce(s, r, b, o), m, o + 1, m) && SameFrames(s.m, MergeOnce(s, r, b, o).m)
  {
    AncOfBase(Anc(h, o), o);
    MergeOnceLoose(s, r, o);
    MergeHeads(r, o, r);
    MergeRetags(s.m, r, o);
    HeadRunInPool(s.m, Base(Anc(r, o + 1), o + 1), o + 1);
    assert Anc(r, o + 1) == Anc(h, o + 1);
  }

  /** The pool before the first page is freed: all pages allocated with order 0, all lists empty. */
  lemma InitValid(s: PoolState)
    requires |s.m.used| == |s.m.order| && |s.lists| == |s.nrFree| == MAX_ORDER
    requires forall i :: 0 <= i < |s.m.order| ==> s.m.order[i] == 0 && s.m.used[i]
    requires forall k :: 0 <= k < MAX_ORDER ==> s.lists[k] == [] && s.nrFree[k] == 0
    ensures s.Valid() && forall p: nat :: !s.m.Free(p) && (s.m.In(p) <==> s.m.UsedAt(p, 0))
  {
  }

  lemma SameFramesTrans(s: Meta, t: Meta, v: Meta)
    requires SameFrames(s, t) && SameFrames(t, v)
    ensures SameFrames(s, v)
  {
  }

  lemma ClaimsAfter(s: Meta, t: Meta, v: Meta, a: nat, k: nat)
    requires SameFrames(s, t) && Claims(t, v, a, k)
    ensures Claims(s, v, a, k)
  {
    forall q: nat | Anc(q, k) == a
      ensures s.Free(q)
    {
      assert t.Free(q);
    }
  }

  // -------------------------------------------------------------------------------- the allocator

  class Pool {
    const lo: nat
    const order: array<nat>
    const taken: array<bool>
    const freeList: array<seq<nat>>
    const nrFree: array<nat>

    ghost predicate Shape() {
      && order.Length == taken.Length
      && freeList.Length == nrFree.Length == MAX_ORDER
      && order != nrFree
    }

    ghost function View(): PoolState
      reads order, taken, freeList, nrFree
    {
      PoolState(Meta(lo, order[..], taken[..]), freeList[..], nrFree[..])
    }

    ghost predicate Valid()
      reads order, taken, freeList, nrFree
    {
      Shape() && View().Valid()
    }

    /** init_buddy: every page starts out allocated with order 0, and is then freed in turn. */
    constructor (lo: nat, pageNum: nat)
      ensures Valid() && this.lo == lo && order.Length == pageNum
      ensures fresh(order) && fresh(taken) && fresh(freeList) && fresh(nrFree)
      ensures forall p: nat :: View().m.Free(p) <==> lo <= p < lo + pageNum
    {
      this.lo := lo;
      order := new nat[pageNum](_ => 0);
      taken := new bool[pageNum](_ => true);
      freeList := new seq<nat>[MAX_ORDER](_ => []);
      nrFree := new nat[MAX_ORDER](_ => 0);
      new;
      InitValid(View());
      for i := 0 to pageNum
        invariant Valid()
        invariant forall p: nat :: View().m.Free(p) <==> lo <= p < lo + i
        invariant forall p: nat :: lo + i <= p < lo + pageNum ==> View().m.UsedAt(p, 0)
      {
        assert View().m.UsedAt(lo + i, 0);
        FreePages(lo + i);
      }
    }

    function PageToVirt(p: nat): (addr: nat)
      requires lo <= p
      ensures addr == p * PAGE_SIZE
    {
      (p - lo) * PAGE_SIZE + lo * PAGE_SIZE
    }

    function VirtToPage(addr: nat): (p: nat)
      requires lo * PAGE_SIZE <= addr
      ensures p == addr / PAGE_SIZE
    {
      lo + (addr - lo * PAGE_SIZE) / PAGE_SIZE
    }

    /** get_buddy_chunk: flips bit order + 12 of the chunk's byte address; none if that leaves the pool. */
    function GetBuddyChunk(h: nat): (r: Option<nat>)
      requires Shape() && View().m.In(h) && IsHead(h, order[h - lo])
      reads order, taken, freeList, nrFree
      ensures var b := Base(Sib(Anc(h, order[h - lo])), order[h - lo]);
              r == if View().m.In(b) then Some(b) else None
    {
      var addr := Xor(PageToVirt(h), Pow2(order[h - lo] + PAGE_SIZE_ORDER));
      BuddyAddress(h, order[h - lo]);
      if addr < lo * PAGE_SIZE || addr >= lo * PAGE_SIZE + order.Length * PAGE_SIZE then None
      else Some(VirtToPage(addr))
    }

    /** set_free_page and set_alloc_page. */
    method SetPages(h: nat, k: nat, u: bool)
      requires Shape() && lo <= h && h + Pow2(k) <= lo + order.Length
      modifies order, taken
      ensures View() == old(View()).(m := old(View()).m.Mark(h, k, u))
    {
      for i := 0 to Pow2(k)
        invariant freeList[..] == old(freeList[..]) && nrFree[..] == old(nrFree[..])
        invariant forall q :: 0 <= q < order.Length ==>
                    order[q] == if h <= lo + q < h + i then k else old(order[q])
        invariant forall q :: 0 <= q < order.Length ==>
                    taken[q] == if h <= lo + q < h + i then u else old(taken[q])
      {
        order[h - lo + i] := k;
        taken[h - lo + i] := u;
      }
      assert order[..] == old(View()).m.Mark(h, k, u).order;
      assert taken[..] == old(View()).m.Mark(h, k, u).used;
    }

    /** list_del followed by the matching decrement of nr_free. */
    method Remove(h: nat, k: nat)
      requires Shape() && k < MAX_ORDER && nrFree[k] > 0
      modifies freeList, nrFree
      ensures View() == Unlist(old(View()), h, k)
    {
      freeList[k] := Common.Remove(freeList[k], h);
      nrFree[k] := nrFree[k] - 1;
    }

    /** list_add followed by the matching increment of nr_free. */
    method Add(h: nat, k: nat)
      requires Shape() && k < MAX_ORDER
      modifies freeList, nrFree
      ensures View() == Enlist(old(View()), h, k)
    {
      freeList[k] := [h] + freeList[k];
      nrFree[k] := nrFree[k] + 1;
    }

    /** One round of the loop in split_page. */
    method SplitInHalf(h: nat, o: nat)
      requires Shape() && 0 < o < MAX_ORDER && lo <= h && h + Pow2(o) <= lo + order.Length && nrFree[o] > 0
      modifies order, taken, freeList, nrFree
      ensures View() == SplitOnce(old(View()), h, o)
    {
      var second := h + Pow2(o - 1);
      SetPages(h, o - 1, false);
      SetPages(second, o - 1, false);
      Remove(h, o);
      Add(h, o - 1);
      Add(second, o - 1);
    }

    method SplitPage(k: nat, h: nat, ghost m: nat)
      requires Shape() && Loose(View(), h, m, -1) && k <= m < MAX_ORDER
      requires SplitLists(freeList[..], freeList[..], m, m, h) && forall j :: k <= j < m ==> freeList[j] == []
      modifies order, taken, freeList, nrFree
      ensures Loose(View(), h, k, -1) && SameFrames(old(View()).m, View().m)
      ensures SplitLists(old(freeList[..]), freeList[..], k, m, h)
    {
      ghost var s0 := View();
      while order[h - lo] != k
        invariant s0 == old(View()) && lo <= h < lo + order.Length && k <= order[h - lo] <= m
        invariant Loose(View(), h, order[h - lo], -1) && SameFrames(s0.m, View().m)
        invariant SplitLists(s0.lists, freeList[..], order[h - lo], m, h)
        decreases order[h - lo]
      {
        var o := order[h - lo];
        ghost var s := View();
        SplitRound(s0, s, h, o, k, m);
        SplitInHalf(h, o);
      }
    }

    /** buddy_get_pages, with the search stopping below MAX_ORDER. */
    method GetPages(k: nat) returns (r: Option<nat>)
      requires Valid()
      modifies order, taken, freeList, nrFree
      ensures Valid()
      ensures r.None? <==> k >= MAX_ORDER || forall a: nat :: !old(View()).m.AllFree(a, k)
      ensures r.None? ==> View() == old(View())
      ensures r.Some? ==> IsHead(r.value, k) && Claims(old(View()).m, View().m, Anc(r.value, k), k)
      ensures r.Some? ==> exists m: nat :: FirstFit(old(freeList[..]), freeList[..], k, m, r.value)
    {
      ghost var s := View();
      var m := k;
      while m < MAX_ORDER
        invariant k <= m && View() == s && s.Valid()
        invariant forall j :: k <= j < m && j < MAX_ORDER ==> freeList[j] == []
      {
        if nrFree[m] > 0 {
          var h := freeList[m][0];
          assert h in s.lists[m];
          TakenRunFree(s, h, m, k);
          SplitPage(k, h, m);
          ghost var t := View();
          TakeValid(t, h, k);
          BlockIn(t.m, h, k);
          HeadRunInPool(t.m, h, k);
          SetPages(h, k, true);
          Remove(h, k);
          assert View() == Take(t, h, k);
          SplitThenTake(s.lists, t.lists, k, m, h);
          assert FirstFit(s.lists, freeList[..], k, m, h);
          ClaimsAfter(s.m, t.m, View().m, Anc(h, k), k);
          return Some(h);
        }
        m := m + 1;
      }
      forall a: nat | k < MAX_ORDER
        ensures !s.m.AllFree(a, k)
      {
        NothingToTake(s, a, k);
      }
      return None;
    }

    /** One round of the loop in merge_page. */
    method MergeWith(h: nat, b: nat, o: nat) returns (r: nat)
      requires Shape() && o < MAX_ORDER && nrFree[o] > 0
      requires var r := if h < b then h else b; lo <= r && r + Pow2(o + 1) <= lo + order.Length
      modifies order, taken, freeList, nrFree
      ensures r == (if h < b then h else b) && View() == MergeOnce(old(View()), h, b, o)
    {
      Remove(b, o);
      r := if h < b then h else b;
      SetPages(r, o + 1, false);
    }

    /** The test of merge_page: the sibling to merge with, or none if the chunk cannot grow. */
    method FindPartner(r: nat) returns (b: Option<nat>)
      requires Shape() && View().m.In(r) && IsHead(r, order[r - lo]) && order[r - lo] < MAX_ORDER
      ensures b.None? ==> Stuck(View(), r, order[r - lo])
      ensures b.Some? ==> order[r - lo] + 1 < MAX_ORDER && b.value == Base(Sib(Anc(r, order[r - lo])), order[r - lo])
                          && View().m.FreeAt(b.value, order[r - lo])
    {
      b := GetBuddyChunk(r);
      if b.None? || taken[b.value - lo] || order[b.value - lo] != order[r - lo] || order[r - lo] >= MAX_ORDER - 1 {
        b := None;
      }
    }

    method MergePage(h: nat, ghost k: nat) returns (r: nat, ghost o: nat)
      requires Shape() && Loose(View(), h, k, h)
      modifies order, taken, freeList, nrFree
      ensures Merging(old(View()), View(), h, k, r, o) && Stuck(View(), r, o)
    {
      r, o := h, k;
      ghost var s0, s := View(), View();
      MergingBegins(s0, h, k);
      while true
        invariant s == View() && Merging(s0, s, h, k, r, o)
        decreases MAX_ORDER - o
      {
        var buddy := FindPartner(r);
        if buddy.None? {
          return;
        }
        ghost var r' := if r < buddy.value then r else buddy.value;
        MergingNext(s0, s, h, k, r, o, buddy.value, r');
        s, o := MergeOnce(s, r, buddy.value, o), o + 1;
        r := MergeWith(r, buddy.value, order[r - lo]);
      }
    }

    method FreePages(h: nat)
      requires Valid() && View().m.In(h) && taken[h - lo] && IsHead(h, order[h - lo])
      modifies order, taken, freeList, nrFree
      ensures Valid()
      ensures Releases(old(View()).m, View().m, Anc(h, old(order[h - lo])), old(order[h - lo]))
      ensures exists j: nat :: var k := old(order[h - lo]);
                k <= j < MAX_ORDER &&
                var l := MergedLists(old(freeList[..]), h, k, j);
                freeList[..] == l[j := [Base(Anc(h, j), j)] + l[j]]
    {
      var k := order[h - lo];
      ghost var s := View();
      BlockIn(s.m, h, k);
      HeadRunInPool(s.m, h, k);
      MarkFreeLoose(s, h, k);
      SetPages(h, k, false);
      ghost var t := View();
      var r; ghost var o;
      r, o := MergePage(h, k);
      ghost var v := View();
      var j := order[r - lo];
      EnlistValid(v, r, j);
      Add(r, j);
      assert View() == Enlist(v, r, j);
      assert freeList[..] == v.lists[j := [Base(Anc(h, j), j)] + v.lists[j]];
    }

    /** get_free_mem_size_from_buddy. */
    method FreeMemSize() returns (total: nat)
      requires Valid()
      ensures total == PAGE_SIZE * |FreeFrames(View().m)|
    {
      total := 0;
      ghost var s := View();
      FramesBelowStep(s.m, 0);
      for k := 0 to MAX_ORDER
        invariant total == PAGE_SIZE * |FramesBelow(s.m, k)|
      {
        OrderBytes(s, k);
        total := total + nrFree[k] * (PAGE_SIZE * Pow2(k));
      }
      AllBelow(s.m);
    }
  }
}
