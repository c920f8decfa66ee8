/** Slabs of small objects on top of the buddy allocator, as a value: which slots of which slab are free or
    issued, and which blocks of whole pages are out. */
module Slab {
  import opened Common
  import opened Blocks
  import opened BuddyState
  import opened BuddySteps
  import B = Buddy

  const SLAB_ORDER: nat := 9        // 2M in pages
  const SLAB_PAGES: nat := 512
  const SLAB_BITS: nat := 21        // 2M in bytes
  const SLAB_MIN_ORDER: nat := 5
  const SLAB_MAX_ORDER: nat := 11
  /** A slab header: the object order and the list of free slots, by address. */
  datatype Header = Header(order: nat, free: seq<nat>)

  /** What a pointer that is out points at: a slot of the slab at a frame, or 2^order whole pages. */
  datatype Block = InSlab(base: nat) | Pages(order: nat)

  /** `lists` are the slabs of each object order, `slabs` their headers by first frame, and `owner` is the
      slab pointer of each page. */
  datatype Heap = Heap(lists: seq<seq<nat>>, slabs: map<nat, Header>, owner: map<nat, nat>, issued: map<nat, Block>)

  // ---------------------------------------------------------------------------------------- page runs

  /** The frames of a run of 2^k pages are taken as one chunk. */
  ghost predicate RunUsed(m: Meta, f: nat, k: nat) {
    forall p: nat :: f <= p < f + Pow2(k) ==> m.UsedAt(p, k)
  }

  /** The buddy allocator hands out the run at `f`, which was free. */
  ghost predicate TakesRun(m: Meta, m': Meta, f: nat, k: nat) {
    && IsHead(f, k)
    && (forall p: nat :: f <= p < f + Pow2(k) ==> m.Free(p))
    && (forall p: nat, j: nat :: m'.UsedAt(p, j) <==> m.UsedAt(p, j) || (j == k && f <= p < f + Pow2(k)))
  }

  /** It takes the run at `f` back. */
  ghost predicate GivesRun(m: Meta, m': Meta, f: nat, k: nat) {
    forall p: nat, j: nat :: m'.UsedAt(p, j) <==> m.UsedAt(p, j) && !(f <= p < f + Pow2(k))
  }

  /** This is what the contracts of buddy_get_pages and buddy_free_pages say. */
  lemma ClaimsRun(m: Meta, m': Meta, f: nat, k: nat)
    requires IsHead(f, k) && Claims(m, m', Anc(f, k), k)
    ensures TakesRun(m, m', f, k)
  {
    forall p: nat
      ensures Anc(p, k) == Anc(f, k) <==> f <= p < f + Pow2(k)
    {
      BlockRange(p, k, Anc(f, k));
    }
  }

  lemma ReleasesRun(m: Meta, m': Meta, f: nat, k: nat)
    requires IsHead(f, k) && Releases(m, m', Anc(f, k), k)
    ensures GivesRun(m, m', f, k)
  {
    forall p: nat
      ensures Anc(p, k) == Anc(f, k) <==> f <= p < f + Pow2(k)
    {
      BlockRange(p, k, Anc(f, k));
    }
  }

  /** Two heads of the same order whose runs share a frame are the same. */
  lemma SameRun(f: nat, g: nat, k: nat, p: nat)
    requires IsHead(f, k) && IsHead(g, k) && f <= p < f + Pow2(k) && g <= p < g + Pow2(k)
    ensures f == g
  {
    B.InRunOf(p, f, k);
    B.InRunOf(p, g, k);
  }

  /** A 2M run starts at a multiple of 512 frames. */
  lemma HeadAligned(f: nat)
    requires IsHead(f, SLAB_ORDER)
    ensures f % SLAB_PAGES == 0
  {
    SlabSizes();
    B.BaseIsProduct(Anc(f, SLAB_ORDER), SLAB_ORDER);
  }

  lemma SlabSizes()
    ensures Pow2(SLAB_ORDER) == SLAB_PAGES && Pow2(SLAB_BITS) == SLAB_PAGES * PAGE_SIZE
  {
    assert Pow2(9) == 512;
    assert Pow2(13) == 16 * Pow2(9);
    assert Pow2(17) == 16 * Pow2(13);
    assert Pow2(21) == 16 * Pow2(17);
  }

  // ---------------------------------------------------------------------------------------- addresses

  /** The address of slot `i` in a slab whose first frame is `f`; slot 0 holds the header. */
  function SlotAddr(f: nat, order: nat, i: nat): nat {
    f * PAGE_SIZE + Base(i, order)
  }

  lemma SlabBytes(order: nat)
    requires order <= SLAB_BITS
    ensures Base(Pow2(SLAB_BITS - order), order) == SLAB_PAGES * PAGE_SIZE
  {
    BasePow(SLAB_BITS - order, order);
    SlabSizes();
  }

  /** Slots of one slab lie one behind the other, inside its 512 pages. */
  lemma SlotRange(f: nat, order: nat, i: nat, x: nat)
    requires order <= SLAB_BITS && i < Pow2(SLAB_BITS - order)
             && SlotAddr(f, order, i) <= x < SlotAddr(f, order, i) + Pow2(order)
    ensures f <= x / PAGE_SIZE < f + SLAB_PAGES
  {
    SlabBytes(order);
    BaseNext(i, order);
    if i + 1 < Pow2(SLAB_BITS - order) {
      BaseMono(i + 1, Pow2(SLAB_BITS - order), order);
    }
  }

  lemma SlotsApart(f: nat, order: nat, i: nat, j: nat)
    requires i < j
    ensures SlotAddr(f, order, i) + Pow2(order) <= SlotAddr(f, order, j)
  {
    BaseMono(i, j, order);
  }

  /** Aligned 2M runs that share a frame are the same. */
  lemma AlignedSame(f: nat, g: nat, p: nat)
    requires f % SLAB_PAGES == 0 && g % SLAB_PAGES == 0 && f <= p < f + SLAB_PAGES && g <= p < g + SLAB_PAGES
    ensures f == g
  {
  }

  // ------------------------------------------------------------------------------------ the invariant

  predicate IsSlot(f: nat, order: nat, x: nat, i: nat) {
    order <= SLAB_BITS && 0 < i < Pow2(SLAB_BITS - order) && x == SlotAddr(f, order, i)
  }

  /** Every frame of the slab at `f` is taken as part of one 2M chunk. */
  ghost predicate SlabRun(m: Meta, f: nat) {
    f % SLAB_PAGES == 0 && forall p: nat :: f <= p < f + SLAB_PAGES ==> m.UsedAt(p, SLAB_ORDER)
  }

  /** Every slot of a slab but the first is free or issued, not both; and nothing else is on its free list. */
  ghost predicate SlotsOk(s: Header, issued: map<nat, Block>, f: nat) {
    && SLAB_MIN_ORDER <= s.order <= SLAB_MAX_ORDER && NoDup(s.free)
    && (forall x :: x in s.free ==> x !in issued && exists i: nat :: IsSlot(f, s.order, x, i))
    && (forall i: nat :: 0 < i < Pow2(SLAB_BITS - s.order) && SlotAddr(f, s.order, i) !in s.free ==>
          SlotAddr(f, s.order, i) in issued && issued[SlotAddr(f, s.order, i)] == InSlab(f))
  }

  ghost predicate BlockOk(slabs: map<nat, Header>, owner: map<nat, nat>, m: Meta, x: nat, b: Block) {
    match b
    case InSlab(f) => f in slabs && exists i: nat :: IsSlot(f, slabs[f].order, x, i)
    case Pages(k) =>
      var f := x / PAGE_SIZE;
      x % PAGE_SIZE == 0 && IsHead(f, k) && RunUsed(m, f, k) && (k == SLAB_ORDER ==> f % SLAB_PAGES == 0) && f !in owner
  }

  ghost predicate SlabOwned(owner: map<nat, nat>, f: nat) {
    forall p: nat :: f <= p < f + SLAB_PAGES ==> p in owner && owner[p] == f
  }

  /** The slab pointer of a page is set for exactly the pages of slabs. */
  ghost predicate OwnersOk(h: Heap) {
    && (forall p :: p in h.owner ==> h.owner[p] in h.slabs && h.owner[p] <= p < h.owner[p] + SLAB_PAGES)
    && (forall f :: f in h.slabs ==> SlabOwned(h.owner, f))
  }

  ghost predicate ListsOk(h: Heap) {
    && |h.lists| == SLAB_MAX_ORDER + 1
    && (forall k: nat, f: nat :: k <= SLAB_MAX_ORDER ==> (f in h.lists[k] <==> f in h.slabs && h.slabs[f].order == k))
  }

  ghost predicate Good(h: Heap, m: Meta) {
    && ListsOk(h) && OwnersOk(h)
    && (forall f :: f in h.slabs ==> SlabRun(m, f))
    && (forall f :: f in h.slabs ==> SlotsOk(h.slabs[f], h.issued, f))
    && (forall x :: x in h.issued ==> BlockOk(h.slabs, h.owner, m, x, h.issued[x]))
  }

  // ---------------------------------------------------------------------------------- what it means

  /** The size of a block that is out. */
  function SizeOf(h: Heap, x: nat): nat
    requires x in h.issued
  {
    match h.issued[x]
    case InSlab(f) => if f in h.slabs then Pow2(h.slabs[f].order) else 0
    case Pages(k) => Pow2(k) * PAGE_SIZE
  }

  /** The frame of a byte of a slot. */
  lemma SlotFrame(h: Heap, m: Meta, f: nat, i: nat, z: nat)
    requires Good(h, m) && f in h.slabs && i < Pow2(SLAB_BITS - h.slabs[f].order)
    requires SlotAddr(f, h.slabs[f].order, i) <= z < SlotAddr(f, h.slabs[f].order, i) + Pow2(h.slabs[f].order)
    ensures z / PAGE_SIZE in h.owner && h.owner[z / PAGE_SIZE] == f && m.UsedAt(z / PAGE_SIZE, SLAB_ORDER)
  {
    assert SlabRun(m, f) && SlotsOk(h.slabs[f], h.issued, f) && SlabOwned(h.owner, f);
    SlotRange(f, h.slabs[f].order, i, z);
  }

  /** A frame of a block of pages is in no slab. */
  lemma PageNotSlab(h: Heap, m: Meta, x: nat, k: nat, p: nat)
    requires Good(h, m) && x in h.issued && h.issued[x] == Pages(k) && x / PAGE_SIZE <= p < x / PAGE_SIZE + Pow2(k)
    ensures m.UsedAt(p, k) && p !in h.owner
  {
    var f := x / PAGE_SIZE;
    assert BlockOk(h.slabs, h.owner, m, x, h.issued[x]);
    assert m.UsedAt(p, k);
    if p in h.owner {
      InSlabUsed(h, m, p);
      SlabSizes();
      AlignedSame(f, h.owner[p], p);
    }
  }

  lemma InSlabUsed(h: Heap, m: Meta, p: nat)
    requires Good(h, m)
    ensures p in h.owner ==> m.UsedAt(p, SLAB_ORDER) && h.owner[p] % SLAB_PAGES == 0
  {
    assert p in h.owner ==> SlabRun(m, h.owner[p]);
  }

  /** The frame of a byte of a block of pages. */
  lemma PageFrame(h: Heap, m: Meta, x: nat, k: nat, z: nat)
    requires Good(h, m) && x in h.issued && h.issued[x] == Pages(k) && x <= z < x + Pow2(k) * PAGE_SIZE
    ensures x / PAGE_SIZE <= z / PAGE_SIZE < x / PAGE_SIZE + Pow2(k) && m.UsedAt(z / PAGE_SIZE, k)
    ensures z / PAGE_SIZE !in h.owner
  {
    assert BlockOk(h.slabs, h.owner, m, x, h.issued[x]);
    PageNotSlab(h, m, x, k, z / PAGE_SIZE);
  }

  /** No byte belongs to two blocks that are out. */
  lemma BlocksDisjoint(h: Heap, m: Meta, x: nat, y: nat, z: nat)
    requires Good(h, m) && x in h.issued && y in h.issued && x != y && x <= z < x + SizeOf(h, x)
    ensures !(y <= z < y + SizeOf(h, y))
  {
    assert BlockOk(h.slabs, h.owner, m, x, h.issued[x]) && BlockOk(h.slabs, h.owner, m, y, h.issued[y]);
    if y <= z < y + SizeOf(h, y) {
      match (h.issued[x], h.issued[y]) {
        case (InSlab(f), InSlab(g)) => SlabAndSlab(h, m, x, f, y, g, z);
        case (InSlab(f), Pages(k)) =>
          var i: nat :| IsSlot(f, h.slabs[f].order, x, i);
          SlotFrame(h, m, f, i, z);
          PageFrame(h, m, y, k, z);
        case (Pages(k), InSlab(f)) =>
          var i: nat :| IsSlot(f, h.slabs[f].order, y, i);
          SlotFrame(h, m, f, i, z);
          PageFrame(h, m, x, k, z);
        case (Pages(k), Pages(l)) =>
          PageFrame(h, m, x, k, z);
          PageFrame(h, m, y, l, z);
          SameRun(x / PAGE_SIZE, y / PAGE_SIZE, k, z / PAGE_SIZE);
      }
    }
  }

  lemma SlabAndSlab(h: Heap, m: Meta, x: nat, f: nat, y: nat, g: nat, z: nat)
    requires Good(h, m) && x in h.issued && h.issued[x] == InSlab(f) && y in h.issued && h.issued[y] == InSlab(g)
             && x != y
    requires x <= z < x + SizeOf(h, x)
    ensures !(y <= z < y + SizeOf(h, y))
  {
    assert BlockOk(h.slabs, h.owner, m, x, h.issued[x]) && BlockOk(h.slabs, h.owner, m, y, h.issued[y]);
    var i: nat :| IsSlot(f, h.slabs[f].order, x, i);
    var j: nat :| IsSlot(g, h.slabs[g].order, y, j);
    SlotFrame(h, m, f, i, z);
    if y <= z < y + SizeOf(h, y) {
      SlotFrame(h, m, g, j, z);
      SlotsApart(f, h.slabs[f].order, if i < j then i else j, if i < j then j else i);
    }
  }

  /** No byte of a block that is out belongs to the header of a slab, which is in its first slot. */
  lemma HeadersDisjoint(h: Heap, m: Meta, x: nat, f: nat, z: nat)
    requires Good(h, m) && x in h.issued && f in h.slabs && x <= z < x + SizeOf(h, x)
    ensures !(f * PAGE_SIZE <= z < f * PAGE_SIZE + Pow2(h.slabs[f].order))
  {
    assert BlockOk(h.slabs, h.owner, m, x, h.issued[x]);
    if f * PAGE_SIZE <= z < f * PAGE_SIZE + Pow2(h.slabs[f].order) {
      BaseZero(h.slabs[f].order);
      SlotFrame(h, m, f, 0, z);
      match h.issued[x] {
        case InSlab(g) =>
          var i: nat :| IsSlot(g, h.slabs[g].order, x, i);
          SlotFrame(h, m, g, i, z);
          SlotsApart(f, h.slabs[f].order, 0, i);
        case Pages(k) => PageFrame(h, m, x, k, z);
      }
    }
  }

  // ------------------------------------------------------------------------------------------ counting

  /** The addresses of the slots of a slab, from 1 up to n - 1. */
  ghost function Slots(f: nat, order: nat, n: nat): set<nat>
    decreases n
  {
    if n <= 1 then {} else Slots(f, order, n - 1) + {SlotAddr(f, order, n - 1)}
  }

  lemma {:induction false} SlotsAre(f: nat, order: nat, n: nat)
    requires n > 0
    ensures |Slots(f, order, n)| == n - 1
    ensures forall i: nat :: 0 < i < n ==> SlotAddr(f, order, i) in Slots(f, order, n)
    ensures forall x :: x in Slots(f, order, n) ==> exists i: nat :: 0 < i < n && x == SlotAddr(f, order, i)
    decreases n
  {
    if n > 1 {
      SlotsAre(f, order, n - 1);
      var fewer := Slots(f, order, n - 1);
      forall x | x in fewer
        ensures x != SlotAddr(f, order, n - 1)
      {
        var i: nat :| 0 < i < n - 1 && x == SlotAddr(f, order, i);
        SlotsApart(f, order, i, n - 1);
      }
    }
  }

  ghost function IssuedFrom(h: Heap, f: nat): set<nat> {
    set x | x in h.issued && h.issued[x] == InSlab(f)
  }

  /** Free slots and issued slots of a slab add up to 2M / object size - 1. */
  lemma SlotsConserved(h: Heap, m: Meta, f: nat)
    requires Good(h, m) && f in h.slabs
    ensures |h.slabs[f].free| + |IssuedFrom(h, f)| == Pow2(SLAB_BITS - h.slabs[f].order) - 1
  {
    var s := h.slabs[f];
    assert SlotsOk(s, h.issued, f);
    var n := Pow2(SLAB_BITS - s.order);
    var all, free, out := Slots(f, s.order, n), (set x | x in s.free), IssuedFrom(h, f);
    SlotsAre(f, s.order, n);
    forall x
      ensures x in all <==> x in free || x in out
    {
      SlotFreeOrOut(h, m, f, x);
    }
    PartSizes(all, free, out);
    NoDupSize(s.free, free);
  }

  lemma PartSizes(all: set<nat>, a: set<nat>, b: set<nat>)
    requires (forall x :: x in all <==> x in a || x in b) && forall x :: x in a ==> x !in b
    ensures |all| == |a| + |b|
  {
    assert all == a + b && a !! b;
  }

  lemma SlotFreeOrOut(h: Heap, m: Meta, f: nat, x: nat)
    requires Good(h, m) && f in h.slabs
    ensures SLAB_MIN_ORDER <= h.slabs[f].order <= SLAB_MAX_ORDER
    ensures x in Slots(f, h.slabs[f].order, Pow2(SLAB_BITS - h.slabs[f].order))
            <==> x in h.slabs[f].free || x in IssuedFrom(h, f)
  {
    var s := h.slabs[f];
    assert SlotsOk(s, h.issued, f);
    var n := Pow2(SLAB_BITS - s.order);
    SlotsAre(f, s.order, n);
    var all := Slots(f, s.order, n);
    if x in all {
      var i: nat :| 0 < i < n && x == SlotAddr(f, s.order, i);
    }
    if x in s.free {
      var i: nat :| IsSlot(f, s.order, x, i);
    }
    if x in IssuedFrom(h, f) {
      assert BlockOk(h.slabs, h.owner, m, x, h.issued[x]);
      var i: nat :| IsSlot(f, s.order, x, i);
    }
  }

  // ----------------------------------------------------------------------------------- the operations

  /** Takes the first free slot of slab `f`. */
  function PopSlot(h: Heap, f: nat): Heap
    requires f in h.slabs && h.slabs[f].free != []
  {
    var s := h.slabs[f];
    h.(slabs := h.slabs[f := s.(free := s.free[1..])], issued := h.issued[s.free[0] := InSlab(f)])
  }

  /** Puts slot `x` in front of the free list of slab `f`. */
  function PushSlot(h: Heap, x: nat, f: nat): Heap
    requires f in h.slabs
  {
    h.(slabs := h.slabs[f := h.slabs[f].(free := [x] + h.slabs[f].free)], issued := h.issued - {x})
  }

  /** The free list of a new slab: all slots but the first, in order. */
  function AllSlots(f: nat, order: nat): (r: seq<nat>)
    requires order <= SLAB_BITS
    ensures |r| == Pow2(SLAB_BITS - order) - 1 && forall i: nat :: i < |r| ==> r[i] == SlotAddr(f, order, i + 1)
  {
    seq(Pow2(SLAB_BITS - order) - 1, i requires 0 <= i => SlotAddr(f, order, i + 1))
  }

  /** The slab pointers of `n` pages from `f` on, all set to `f`. */
  function Owned(f: nat, n: nat): (r: map<nat, nat>)
    ensures forall p: nat :: (p in r <==> f <= p < f + n) && (p in r ==> r[p] == f)
  {
    if n == 0 then map[] else Owned(f, n - 1)[f + n - 1 := f]
  }

  /** A slab of new memory, first in the list of its order. */
  function AddSlab(h: Heap, f: nat, order: nat): Heap
    requires order < |h.lists| && order <= SLAB_BITS
  {
    Heap(h.lists[order := [f] + h.lists[order]], h.slabs[f := Header(order, AllSlots(f, order))],
         h.owner + Owned(f, SLAB_PAGES), h.issued)
  }

  /** A slot belongs to one slab. */
  lemma SlotInOneSlab(h: Heap, m: Meta, f: nat, i: nat, g: nat, j: nat, x: nat)
    requires Good(h, m) && f in h.slabs && g in h.slabs && IsSlot(f, h.slabs[f].order, x, i)
             && IsSlot(g, h.slabs[g].order, x, j)
    ensures f == g
  {
    SlotFrame(h, m, f, i, x);
    SlotFrame(h, m, g, j, x);
  }

  /** A change of a free list leaves the slab lists and the slab pointers right. */
  lemma FreeListChanged(h: Heap, h': Heap, f: nat, free: seq<nat>)
    requires ListsOk(h) && OwnersOk(h) && f in h.slabs && h'.lists == h.lists && h'.owner == h.owner
    requires h'.slabs == h.slabs[f := h.slabs[f].(free := free)]
    ensures ListsOk(h') && OwnersOk(h')
  {
    forall g | g in h'.slabs
      ensures SlabOwned(h'.owner, g)
    {
      assert SlabOwned(h.owner, g);
    }
  }

  lemma PopGood(h: Heap, m: Meta, f: nat)
    requires Good(h, m) && f in h.slabs && h.slabs[f].free != []
    ensures Good(PopSlot(h, f), m) && h.slabs[f].free[0] !in h.issued
  {
    var h', x := PopSlot(h, f), h.slabs[f].free[0];
    assert SlotsOk(h.slabs[f], h.issued, f) && x in h.slabs[f].free;
    var i: nat :| IsSlot(f, h.slabs[f].order, x, i);
    FreeListChanged(h, h', f, h.slabs[f].free[1..]);
    forall g | g in h'.slabs
      ensures SlotsOk(h'.slabs[g], h'.issued, g) && SlabRun(m, g)
    {
      PoppedElsewhere(h, m, f, i, g);
    }
    forall y | y in h'.issued
      ensures BlockOk(h'.slabs, h'.owner, m, y, h'.issued[y])
    {
      if y != x {
        assert BlockOk(h.slabs, h.owner, m, y, h.issued[y]);
      } else {
        assert IsSlot(f, h'.slabs[f].order, x, i);
      }
    }
  }

  lemma PoppedElsewhere(h: Heap, m: Meta, f: nat, i: nat, g: nat)
    requires Good(h, m) && f in h.slabs && h.slabs[f].free != [] && g in h.slabs
             && IsSlot(f, h.slabs[f].order, h.slabs[f].free[0], i)
    ensures SlotsOk(PopSlot(h, f).slabs[g], PopSlot(h, f).issued, g) && SlabRun(m, g)
  {
    var x := h.slabs[f].free[0];
    assert SlotsOk(h.slabs[g], h.issued, g) && SlabRun(m, g);
    if g == f {
      PoppedSlots(h.slabs[f], h.issued, f);
    } else if x in h.slabs[g].free {
      var j: nat :| IsSlot(g, h.slabs[g].order, x, j);
      SlotInOneSlab(h, m, f, i, g, j, x);
    }
  }

  lemma PoppedSlots(s: Header, issued: map<nat, Block>, f: nat)
    requires SlotsOk(s, issued, f) && s.free != []
    ensures SlotsOk(s.(free := s.free[1..]), issued[s.free[0] := InSlab(f)], f)
  {
    var rest := s.free[1..];
    assert forall y :: y in rest ==> y in s.free && y != s.free[0];
    assert forall y :: y in s.free && y != s.free[0] ==> y in rest;
  }

  lemma PushGood(h: Heap, m: Meta, x: nat, f: nat)
    requires Good(h, m) && x in h.issued && h.issued[x] == InSlab(f)
    ensures f in h.slabs && Good(PushSlot(h, x, f), m)
    ensures x / PAGE_SIZE in h.owner && h.owner[x / PAGE_SIZE] == f
  {
    assert BlockOk(h.slabs, h.owner, m, x, h.issued[x]);
    var i: nat :| IsSlot(f, h.slabs[f].order, x, i);
    assert SlotsOk(h.slabs[f], h.issued, f);
    SlotFrame(h, m, f, i, x);
    var h' := PushSlot(h, x, f);
    FreeListChanged(h, h', f, [x] + h.slabs[f].free);
    forall g | g in h'.slabs
      ensures SlotsOk(h'.slabs[g], h'.issued, g) && SlabRun(m, g)
    {
      assert SlotsOk(h.slabs[g], h.issued, g) && SlabRun(m, g);
      if g == f {
        PushedSlots(h.slabs[f], h.issued, f, x, i);
      }
    }
    forall y | y in h'.issued
      ensures BlockOk(h'.slabs, h'.owner, m, y, h'.issued[y])
    {
      assert BlockOk(h.slabs, h.owner, m, y, h.issued[y]);
    }
  }

  lemma PushedSlots(s: Header, issued: map<nat, Block>, f: nat, x: nat, i: nat)
    requires SlotsOk(s, issued, f) && x in issued && IsSlot(f, s.order, x, i)
    ensures SlotsOk(s.(free := [x] + s.free), issued - {x}, f)
  {
    var free := [x] + s.free;
    assert forall y :: y in free <==> y == x || y in s.free;
    forall a, b | 0 <= a < b < |free|
      ensures free[a] != free[b]
    {
      assert free[b] == s.free[b - 1];
    }
  }

  /** A block lies in no frame that is free. */
  lemma NotFree(h: Heap, m: Meta, x: nat)
    requires Good(h, m) && x in h.issued
    ensures !m.Free(x / PAGE_SIZE)
  {
    assert BlockOk(h.slabs, h.owner, m, x, h.issued[x]);
    match h.issued[x] {
      case InSlab(g) =>
        var i: nat :| IsSlot(g, h.slabs[g].order, x, i);
        SlotFrame(h, m, g, i, x);
      case Pages(k) => assert m.UsedAt(x / PAGE_SIZE, k);
    }
  }

  lemma NewSlots(h: Heap, m: Meta, f: nat, order: nat)
    requires Good(h, m) && SLAB_MIN_ORDER <= order <= SLAB_MAX_ORDER && RunFree(m, f, SLAB_PAGES)
    ensures SlotsOk(Header(order, AllSlots(f, order)), h.issued, f)
  {
    var free := AllSlots(f, order);
    forall i, j | 0 <= i < j < |free|
      ensures free[i] != free[j]
    {
      SlotsApart(f, order, i + 1, j + 1);
    }
    forall x | x in free
      ensures x !in h.issued && exists i: nat :: IsSlot(f, order, x, i)
    {
      var i: nat :| i < |free| && free[i] == x;
      NewSlot(h, m, f, order, i + 1);
    }
    forall i: nat | 0 < i < Pow2(SLAB_BITS - order)
      ensures SlotAddr(f, order, i) in free
    {
      assert free[i - 1] == SlotAddr(f, order, i);
    }
  }

  ghost predicate RunFree(m: Meta, f: nat, n: nat) {
    forall p: nat :: f <= p < f + n ==> m.Free(p)
  }

  lemma NewSlot(h: Heap, m: Meta, f: nat, order: nat, i: nat)
    requires Good(h, m) && order <= SLAB_BITS && 0 < i < Pow2(SLAB_BITS - order) && RunFree(m, f, SLAB_PAGES)
    ensures IsSlot(f, order, SlotAddr(f, order, i), i) && SlotAddr(f, order, i) !in h.issued
  {
    var x := SlotAddr(f, order, i);
    SlotRange(f, order, i, x);
    assert m.Free(x / PAGE_SIZE);
    if x in h.issued {
      NotFree(h, m, x);
    }
  }

  /** Runs that were taken stay taken when another run is. */
  lemma RunsKept(h: Heap, m: Meta, m': Meta, f: nat, k: nat)
    requires Good(h, m) && TakesRun(m, m', f, k)
    ensures forall g :: g in h.slabs ==> SlabRun(m', g)
    ensures forall x :: x in h.issued ==> BlockOk(h.slabs, h.owner, m', x, h.issued[x])
  {
    forall g | g in h.slabs
      ensures SlabRun(m', g)
    {
      assert SlabRun(m, g);
    }
    forall x | x in h.issued
      ensures BlockOk(h.slabs, h.owner, m', x, h.issued[x])
    {
      assert BlockOk(h.slabs, h.owner, m, x, h.issued[x]);
    }
  }

  lemma OwnersAdded(h: Heap, m: Meta, f: nat, order: nat)
    requires Good(h, m) && RunFree(m, f, SLAB_PAGES) && order < |h.lists| && order <= SLAB_BITS
    ensures OwnersOk(AddSlab(h, f, order)) && f !in h.slabs
            && forall p: nat :: f <= p < f + SLAB_PAGES ==> p !in h.owner
  {
    forall p: nat | f <= p < f + SLAB_PAGES
      ensures p !in h.owner
    {
      assert m.Free(p);
      InSlabUsed(h, m, p);
    }
    assert f !in h.owner;
    assert f in h.slabs ==> SlabOwned(h.owner, f);
    var h' := AddSlab(h, f, order);
    forall g | g in h'.slabs
      ensures SlabOwned(h'.owner, g)
    {
      assert g != f ==> SlabOwned(h.owner, g);
    }
  }

  lemma NewRun(m: Meta, m': Meta, f: nat)
    requires TakesRun(m, m', f, SLAB_ORDER)
    ensures RunFree(m, f, SLAB_PAGES) && SlabRun(m', f)
  {
    SlabSizes();
    HeadAligned(f);
  }

  lemma AddSlabGood(h: Heap, m: Meta, m': Meta, f: nat, order: nat)
    requires Good(h, m) && TakesRun(m, m', f, SLAB_ORDER) && SLAB_MIN_ORDER <= order <= SLAB_MAX_ORDER
    ensures Good(AddSlab(h, f, order), m') && f !in h.slabs
  {
    NewRun(m, m', f);
    OwnersAdded(h, m, f, order);
    RunsKept(h, m, m', f, SLAB_ORDER);
    NewSlots(h, m, f, order);
    AddedBlocks(h, m, m', f, order);
    ListsAdded(h, f, order);
  }

  lemma ListsAdded(h: Heap, f: nat, order: nat)
    requires ListsOk(h) && f !in h.slabs && order <= SLAB_MAX_ORDER
    ensures ListsOk(AddSlab(h, f, order))
  {
    var h' := AddSlab(h, f, order);
    forall k: nat, g: nat | k <= SLAB_MAX_ORDER
      ensures g in h'.lists[k] <==> g in h'.slabs && h'.slabs[g].order == k
    {
      assert g in h.lists[k] <==> g in h.slabs && h.slabs[g].order == k;
    }
  }

  lemma AddedBlocks(h: Heap, m: Meta, m': Meta, f: nat, order: nat)
    requires Good(h, m) && RunFree(m, f, SLAB_PAGES) && f !in h.slabs && order < |h.lists| && order <= SLAB_BITS
    requires forall x :: x in h.issued ==> BlockOk(h.slabs, h.owner, m', x, h.issued[x])
    ensures forall x :: x in h.issued ==>
              BlockOk(AddSlab(h, f, order).slabs, AddSlab(h, f, order).owner, m', x, h.issued[x])
  {
    forall x | x in h.issued
      ensures BlockOk(AddSlab(h, f, order).slabs, AddSlab(h, f, order).owner, m', x, h.issued[x])
    {
      NotFree(h, m, x);
      assert BlockOk(h.slabs, h.owner, m', x, h.issued[x]);
    }
  }

  /** Whole pages handed out. */
  lemma AddPagesGood(h: Heap, m: Meta, m': Meta, f: nat, k: nat)
    requires Good(h, m) && TakesRun(m, m', f, k)
    ensures f * PAGE_SIZE !in h.issued && Good(h.(issued := h.issued[f * PAGE_SIZE := Pages(k)]), m')
  {
    var x := f * PAGE_SIZE;
    var h' := h.(issued := h.issued[x := Pages(k)]);
    assert x / PAGE_SIZE == f && m.Free(f);
    if x in h.issued {
      NotFree(h, m, x);
    }
    InSlabUsed(h, m, f);
    RunsKept(h, m, m', f, k);
    forall g | g in h'.slabs
      ensures SlotsOk(h'.slabs[g], h'.issued, g)
    {
      FreeSlotElsewhere(h, m, g, f);
    }
    if k == SLAB_ORDER {
      HeadAligned(f);
    }
    assert RunUsed(m', f, k);
  }

  lemma FreeSlotElsewhere(h: Heap, m: Meta, g: nat, f: nat)
    requires Good(h, m) && g in h.slabs && m.Free(f)
    ensures SlotsOk(h.slabs[g], h.issued, g) && f * PAGE_SIZE !in h.slabs[g].free
  {
    var x := f * PAGE_SIZE;
    assert SlotsOk(h.slabs[g], h.issued, g);
    if x in h.slabs[g].free {
      var i: nat :| IsSlot(g, h.slabs[g].order, x, i);
      SlotFrame(h, m, g, i, x);
    }
  }

  /** Whole pages given back. */
  lemma DropPagesGood(h: Heap, m: Meta, m': Meta, x: nat, k: nat)
    requires Good(h, m) && x in h.issued && h.issued[x] == Pages(k) && GivesRun(m, m', x / PAGE_SIZE, k)
    ensures Good(h.(issued := h.issued - {x}), m') && x / PAGE_SIZE !in h.owner
  {
    var h' := h.(issued := h.issued - {x});
    assert BlockOk(h.slabs, h.owner, m, x, h.issued[x]);
    forall g | g in h'.slabs
      ensures SlotsOk(h'.slabs[g], h'.issued, g) && SlabRun(m', g)
    {
      assert SlotsOk(h.slabs[g], h.issued, g);
      SlabRunKept(h, m, m', x, k, g);
    }
    forall y | y in h'.issued
      ensures BlockOk(h'.slabs, h'.owner, m', y, h'.issued[y])
    {
      assert BlockOk(h.slabs, h.owner, m, y, h.issued[y]);
      if h.issued[y].Pages? {
        OtherRunKept(h, m, m', x, k, y, h.issued[y].order);
      }
    }
  }

  lemma SlabRunKept(h: Heap, m: Meta, m': Meta, x: nat, k: nat, g: nat)
    requires Good(h, m) && x in h.issued && h.issued[x] == Pages(k) && GivesRun(m, m', x / PAGE_SIZE, k) && g in h.slabs
    ensures SlabRun(m', g)
  {
    assert SlabRun(m, g);
    forall p: nat | g <= p < g + SLAB_PAGES
      ensures m'.UsedAt(p, SLAB_ORDER)
    {
      assert SlabOwned(h.owner, g) && m.UsedAt(p, SLAB_ORDER);
      if x / PAGE_SIZE <= p < x / PAGE_SIZE + Pow2(k) {
        PageNotSlab(h, m, x, k, p);
      }
    }
  }

  lemma OtherRunKept(h: Heap, m: Meta, m': Meta, x: nat, k: nat, y: nat, l: nat)
    requires Good(h, m) && x in h.issued && h.issued[x] == Pages(k) && GivesRun(m, m', x / PAGE_SIZE, k)
    requires y in h.issued && h.issued[y] == Pages(l) && y != x
    ensures RunUsed(m', y / PAGE_SIZE, l)
  {
    var f, g := x / PAGE_SIZE, y / PAGE_SIZE;
    assert BlockOk(h.slabs, h.owner, m, x, h.issued[x]) && BlockOk(h.slabs, h.owner, m, y, h.issued[y]);
    forall p: nat | g <= p < g + Pow2(l)
      ensures m'.UsedAt(p, l)
    {
      assert m.UsedAt(p, l);
      if f <= p < f + Pow2(k) {
        assert m.UsedAt(p, k);
        SameRun(f, g, k, p);
      }
    }
  }
}
