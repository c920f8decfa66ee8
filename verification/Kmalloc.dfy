/** kmalloc and kfree: small requests go to slabs, large ones to the buddy allocator, and what comes back
    goes where it came from. */
module Kmalloc {
  import opened Common
  import opened Blocks
  import opened BuddyState
  import opened BuddySteps
  import opened Slab
  import B = Buddy

  /** size_to_order, and the loop of size_to_page_order: the least order that is large enough. */
  method SizeToOrder(size: nat) returns (order: nat)
    ensures size <= Pow2(order) && (order > 0 ==> Pow2(order - 1) < size)
  {
    order := 0;
    var tmp := size;
    while tmp > 1
      invariant tmp == Anc(size, order) && (order > 0 ==> tmp >= 1)
    {
      tmp := tmp / 2;
      order := order + 1;
    }
    AncRange(size, order);
    BaseZero(order);
    BasePow(0, order);
    if size > Pow2(order) {
      order := order + 1;
    }
  }

  /** size_to_page_order. */
  method SizeToPageOrder(size: nat) returns (order: nat)
    ensures size <= Pow2(order) * PAGE_SIZE && (order > 0 ==> Pow2(order - 1) * PAGE_SIZE < size)
  {
    var pages := (size + PAGE_SIZE - 1) / PAGE_SIZE;
    order := SizeToOrder(pages);
  }

  /** The least order from `low` on whose power of two is at least `size`. */
  function OrderFor(size: nat, low: nat): (k: nat)
    ensures low <= k && size <= Pow2(k) && (k > low ==> Pow2(k - 1) < size)
    decreases if size > Pow2(low) then size - Pow2(low) else 0
  {
    if size <= Pow2(low) then low else OrderFor(size, low + 1)
  }

  lemma OrderUnique(size: nat, low: nat, k: nat)
    requires low <= k && size <= Pow2(k) && (k > low ==> Pow2(k - 1) < size)
    ensures k == OrderFor(size, low)
  {
    var o := OrderFor(size, low);
    if k < o {
      Pow2Mono(k, o - 1);
    } else if o < k {
      Pow2Mono(o, k - 1);
    }
  }

  /** No slab of the order has a free slot. */
  ghost predicate NoSlot(h: Heap, order: nat) {
    order < |h.lists| && forall f :: f in h.lists[order] && f in h.slabs ==> h.slabs[f].free == []
  }

  /** No aligned run of 2^k pages is free. */
  ghost predicate NoRun(m: Meta, k: nat) {
    k >= MAX_ORDER || forall a: nat :: !m.AllFree(a, k)
  }

  /** The frames of the pool that are free. */
  ghost function FreeFrames(m: Meta): set<nat> {
    set f: nat | m.lo <= f < m.lo + |m.order| && m.Free(f)
  }

  /** A page can be had exactly if a frame is free. */
  lemma NoRunOfOne(m: Meta)
    ensures NoRun(m, 0) <==> FreeFrames(m) == {}
  {
    forall f: nat
      ensures m.AllFree(f, 0) <==> f in FreeFrames(m)
    {
      assert Anc(f, 0) == f;
      assert forall q: nat :: Anc(q, 0) == q;
    }
  }

  /** The frames from `f` on, 2^k of them, were free and are not any more; the others stay as they were. */
  ghost predicate TakesFrames(m: Meta, m': Meta, f: nat, k: nat) {
    && (forall p: nat :: f <= p < f + Pow2(k) ==> p in FreeFrames(m))
    && (forall p: nat :: p in FreeFrames(m') <==> p in FreeFrames(m) && !(f <= p < f + Pow2(k)))
  }

  lemma ClaimedFrames(m: Meta, m': Meta, f: nat, k: nat)
    requires IsHead(f, k) && Claims(m, m', Anc(f, k), k)
    ensures TakesFrames(m, m', f, k)
  {
    forall p: nat
      ensures f <= p < f + Pow2(k) ==> p in FreeFrames(m)
      ensures p in FreeFrames(m') <==> p in FreeFrames(m) && !(f <= p < f + Pow2(k))
    {
      BlockRange(p, k, Anc(f, k));
      assert m'.Free(p) <==> m.Free(p) && Anc(p, k) != Anc(f, k);
      assert Anc(p, k) == Anc(f, k) ==> m.Free(p);
    }
  }

  /** There is nothing left for a request of `size` bytes. */
  ghost predicate Exhausted(h: Heap, m: Meta, size: nat) {
    if size <= 2048 then NoSlot(h, OrderFor(size, SLAB_MIN_ORDER)) && NoRun(m, SLAB_ORDER)
    else NoRun(m, OrderFor((size + PAGE_SIZE - 1) / PAGE_SIZE, 0))
  }

  class KernelHeap {
    const pool: B.Pool
    var lists: seq<seq<nat>>
    var slabs: map<nat, Header>
    var owner: map<nat, nat>
    ghost var issued: map<nat, Block>

    ghost function View(): Heap
      reads this
    {
      Heap(lists, slabs, owner, issued)
    }

    ghost function Meta(): BuddyState.Meta
      reads pool.order, pool.taken, pool.freeList, pool.nrFree
    {
      pool.View().m
    }

    ghost predicate Valid()
      reads this, pool.order, pool.taken, pool.freeList, pool.nrFree
    {
      pool.Valid() && Good(View(), Meta())
    }

    constructor (pool: B.Pool)
      requires pool.Valid()
      ensures Valid() && this.pool == pool && issued == map[] && slabs == map[]
      ensures forall k :: 0 <= k <= SLAB_MAX_ORDER ==> lists[k] == []
    {
      this.pool := pool;
      lists := seq(SLAB_MAX_ORDER + 1, _ => []);
      slabs, owner, issued := map[], map[], map[];
    }

    /** alloc_slab_memory and init_slab_cache; None stands for the stop of the kernel when memory runs out. */
    method InitSlabCache(order: nat) returns (f: Option<nat>)
      requires Valid() && SLAB_MIN_ORDER <= order <= SLAB_MAX_ORDER
      modifies this`lists, this`slabs, this`owner, pool.order, pool.taken, pool.freeList, pool.nrFree
      ensures Valid()
      ensures f.None? <==> NoRun(old(Meta()), SLAB_ORDER)
      ensures f.None? ==> View() == old(View()) && Meta() == old(Meta())
      ensures f.Some? ==> View() == AddSlab(old(View()), f.value, order) && slabs[f.value].free != []
    {
      ghost var m := Meta();
      f := pool.GetPages(SLAB_ORDER);
      if f.None? {
        return;
      }
      ClaimsRun(m, Meta(), f.value, SLAB_ORDER);
      AddSlabGood(View(), m, Meta(), f.value, order);
      FillSlab(f.value, order);
    }

    /** init_slab on a heap without slabs: one slab of each order, all of whose slots are free; it stops when no run
        of 2M is left. */
    method InitSlab() returns (ok: bool)
      requires Valid() && slabs == map[] && issued == map[] && forall k :: 0 <= k <= SLAB_MAX_ORDER ==> lists[k] == []
      modifies this`lists, this`slabs, this`owner, pool.order, pool.taken, pool.freeList, pool.nrFree
      ensures Valid() && (!ok ==> NoRun(Meta(), SLAB_ORDER))
      ensures ok ==> forall k: nat :: SLAB_MIN_ORDER <= k <= SLAB_MAX_ORDER ==> OneSlab(View(), k)
    {
      for order := SLAB_MIN_ORDER to SLAB_MAX_ORDER + 1
        invariant Valid() && issued == map[] && forall k :: order <= k <= SLAB_MAX_ORDER ==> lists[k] == []
        invariant forall k: nat :: SLAB_MIN_ORDER <= k < order ==> OneSlab(View(), k)
      {
        ghost var h := View();
        var f := InitSlabCache(order);
        if f.None? {
          return false;
        }
        forall k: nat | SLAB_MIN_ORDER <= k <= order
          ensures OneSlab(View(), k)
        {
          assert k < order ==> OneSlab(h, k);
        }
      }
      return true;
    }

    /** The loops that set the slab pointers of the pages and chain the free slots. */
    method FillSlab(f: nat, order: nat)
      requires order < |lists| && order <= SLAB_MAX_ORDER
      modifies this`lists, this`slabs, this`owner
      ensures View() == AddSlab(old(View()), f, order) && slabs[f].free != []
    {
      var own: map<nat, nat> := map[];
      for i := 0 to SLAB_PAGES
        invariant own == Owned(f, i)
      {
        own := own[f + i := f];
      }
      owner := owner + own;
      var count := Pow2(SLAB_BITS - order) - 1;
      MoreThanOne(SLAB_BITS - order);
      var free := [];
      for i := 0 to count
        invariant |free| == i && forall j: nat :: j < i ==> free[j] == SlotAddr(f, order, j + 1)
      {
        free := free + [SlotAddr(f, order, i + 1)];
      }
      assert free == AllSlots(f, order);
      slabs := slabs[f := Header(order, free)];
      lists := lists[order := [f] + lists[order]];
    }

    /** _alloc_in_slab_nolock: the first slab of the order with a free slot, or a new one. */
    method AllocInSlab(order: nat) returns (x: Option<nat>)
      requires Valid() && SLAB_MIN_ORDER <= order <= SLAB_MAX_ORDER
      modifies this, pool.order, pool.taken, pool.freeList, pool.nrFree
      ensures Valid()
      ensures x.None? <==> NoSlot(old(View()), order) && NoRun(old(Meta()), SLAB_ORDER)
      ensures x.None? ==> View() == old(View()) && Meta() == old(Meta())
      ensures x.Some? ==> x.value !in old(issued) && x.value in issued && SizeOf(View(), x.value) == Pow2(order)
                          && issued == old(issued)[x.value := issued[x.value]]
    {
      ghost var h := View();
      for i := 0 to |lists[order]|
        invariant View() == h && Valid() && Meta() == old(Meta())
        invariant forall j :: 0 <= j < i ==> slabs[lists[order][j]].free == []
      {
        var f := lists[order][i];
        assert f in lists[order];
        if slabs[f].free != [] {
          x := TakeSlot(f);
          return;
        }
      }
      var f := InitSlabCache(order);
      if f.None? {
        return None;
      }
      x := TakeSlot(f.value);
    }

    method TakeSlot(f: nat) returns (x: Option<nat>)
      requires Valid() && f in slabs && slabs[f].free != []
      modifies this`slabs, this`issued
      ensures Valid() && x.Some? && x.value !in old(issued) && issued == old(issued)[x.value := InSlab(f)]
      ensures f in slabs && slabs[f].order == old(slabs)[f].order
    {
      PopGood(View(), Meta(), f);
      var first := slabs[f].free[0];
      issued := issued[first := InSlab(f)];
      slabs := slabs[f := slabs[f].(free := slabs[f].free[1..])];
      return Some(first);
    }

    /** kmalloc. */
    method Kmalloc(size: nat) returns (x: Option<nat>)
      requires Valid()
      modifies this, pool.order, pool.taken, pool.freeList, pool.nrFree
      ensures Valid()
      ensures x.None? <==> Exhausted(old(View()), old(Meta()), size)
      ensures x.None? ==> View() == old(View()) && Meta() == old(Meta())
      ensures x.Some? ==> x.value !in old(issued) && x.value in issued && SizeOf(View(), x.value) >= size
                          && issued == old(issued)[x.value := issued[x.value]]
                             && (size > 2048 ==> issued[x.value].Pages?)
    {
      if size <= 2048 {
        var order := SizeToOrder(size);
        SmallOrder(order, size);
        if order < SLAB_MIN_ORDER {
          order := SLAB_MIN_ORDER;
        }
        OrderUnique(size, SLAB_MIN_ORDER, order);
        x := AllocInSlab(order);
      } else {
        var order := 0;
        if size > PAGE_SIZE {
          order := SizeToPageOrder(size);
        }
        OrderUnique((size + PAGE_SIZE - 1) / PAGE_SIZE, 0, order);
        x := AllocPages(order);
      }
    }

    /** get_pages, for a caller that keeps the pages. */
    method AllocPages(order: nat) returns (x: Option<nat>)
      requires Valid()
      modifies this`issued, pool.order, pool.taken, pool.freeList, pool.nrFree
      ensures Valid()
      ensures x.None? <==> NoRun(old(Meta()), order)
      ensures x.None? ==> View() == old(View()) && Meta() == old(Meta())
      ensures x.Some? ==> x.value !in old(issued) && issued == old(issued)[x.value := Pages(order)]
      ensures x.Some? ==> TakesFrames(old(Meta()), Meta(), x.value / PAGE_SIZE, order)
    {
      ghost var m := Meta();
      var f := pool.GetPages(order);
      if f.None? {
        return None;
      }
      ClaimsRun(m, Meta(), f.value, order);
      ClaimedFrames(m, Meta(), f.value, order);
      AddPagesGood(View(), m, Meta(), f.value, order);
      issued := issued[f.value * PAGE_SIZE := Pages(order)];
      return Some(f.value * PAGE_SIZE);
    }

    /** kfree: the slab pointer of the page tells which allocator the block came from. */
    method Kfree(x: nat)
      requires Valid() && x in issued
      modifies this, pool.order, pool.taken, pool.freeList, pool.nrFree
      ensures Valid() && issued == old(issued) - {x}
      ensures old(issued)[x].InSlab? ==>
                pool.View() == old(pool.View()) && View() == PushSlot(old(View()), x, old(issued)[x].base)
      ensures old(issued)[x].Pages? ==>
                slabs == old(slabs) && GivesRun(old(Meta()), Meta(), x / PAGE_SIZE, old(issued)[x].order)
    {
      assert BlockOk(slabs, owner, Meta(), x, issued[x]);
      var p := x / PAGE_SIZE;
      if issued[x].InSlab? {
        PushGood(View(), Meta(), x, issued[x].base);
      }
      if p in owner {
        var f := owner[p];
        slabs := slabs[f := slabs[f].(free := [x] + slabs[f].free)];
        issued := issued - {x};
      } else {
        FreeBlock(x);
      }
    }

    method FreeBlock(x: nat)
      requires Valid() && x in issued && issued[x].Pages?
      modifies this`issued, pool.order, pool.taken, pool.freeList, pool.nrFree
      ensures Valid() && issued == old(issued) - {x}
      ensures GivesRun(old(Meta()), Meta(), x / PAGE_SIZE, old(issued)[x].order)
    {
      ghost var m, k, p := Meta(), issued[x].order, x / PAGE_SIZE;
      assert BlockOk(slabs, owner, m, x, issued[x]);
      assert m.UsedAt(p, k);
      pool.FreePages(x / PAGE_SIZE);
      ReleasesRun(m, Meta(), p, k);
      DropPagesGood(View(), m, Meta(), x, k);
      issued := issued - {x};
    }
  }

  /** The order has one slab, and all its slots are free. */
  ghost predicate OneSlab(h: Heap, k: nat) {
    && k <= SLAB_MAX_ORDER && k < |h.lists| && |h.lists[k]| == 1
    && var f := h.lists[k][0]; f in h.slabs && h.slabs[f] == Header(k, AllSlots(f, k))
  }

  lemma SmallOrder(order: nat, size: nat)
    requires size <= 2048 && (order > 0 ==> Pow2(order - 1) < size)
    ensures order <= SLAB_MAX_ORDER && forall k: nat :: order <= k <= SLAB_MAX_ORDER ==> Pow2(order) <= Pow2(k)
  {
    assert Pow2(11) == 2048;
    if order > 11 {
      Pow2Mono(11, order - 1);
    }
    forall k: nat | order <= k <= SLAB_MAX_ORDER
      ensures Pow2(order) <= Pow2(k)
    {
      Pow2Mono(order, k);
    }
  }

  lemma MoreThanOne(k: nat)
    requires k > 0
    ensures Pow2(k) > 1
  {
  }
}
