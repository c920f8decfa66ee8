/** Memory objects, regions and page faults as code on top of the kernel heap and the page tables: frames come from the
    heap, and what is mapped is what the page table translates. */
module FaultHandler {
  import opened Common
  import opened Blocks
  import opened PageTableState
  import opened PageTableSteps
  import opened DemandPaging
  import BuddyState
  import Slab
  import K = Kmalloc
  import P = PageTable
  import N = PageTableNeeds

  // ----------------------------------------------------------------------------- frames from the heap

  /** Frame `f` is one of a block of whole pages that is out. */
  ghost predicate InBlock(issued: map<nat, Slab.Block>, f: nat) {
    exists x :: x in issued && BlockHas(x, issued[x], f)
  }

  predicate BlockHas(x: nat, b: Slab.Block, f: nat) {
    b.Pages? && x <= f * PAGE_SIZE < x + Pow2(b.order) * PAGE_SIZE
  }

  /** Every frame of an object that owns its memory is in a block that is out. */
  ghost predicate Owned(issued: map<nat, Slab.Block>, pmos: seq<Pmo>) {
    forall o: nat, i: nat :: o < |pmos| && pmos[o].kind.Owns() && pmos[o].Frame(i).Some? ==>
          InBlock(issued, pmos[o].Frame(i).value)
  }

  /** A frame of a new block is in no other. */
  lemma NewBlock(h: Slab.Heap, m: BuddyState.Meta, before: map<nat, Slab.Block>, x: nat, f: nat)
    requires Slab.Good(h, m) && x !in before && x in h.issued && h.issued == before[x := h.issued[x]]
             && BlockHas(x, h.issued[x], f)
    ensures !InBlock(before, f)
  {
    if InBlock(before, f) {
      var y :| y in before && BlockHas(y, before[y], f);
      Slab.BlocksDisjoint(h, m, x, y, f * PAGE_SIZE);
    }
  }

  lemma InBlockMore(before: map<nat, Slab.Block>, x: nat, b: Slab.Block, f: nat)
    requires x !in before && InBlock(before, f)
    ensures InBlock(before[x := b], f)
  {
    var y :| y in before && BlockHas(y, before[y], f);
    assert BlockHas(y, before[x := b][y], f);
  }

  /** Frames of blocks lie in the pool. */
  lemma InPool(h: Slab.Heap, m: BuddyState.Meta, f: nat)
    requires Slab.Good(h, m) && InBlock(h.issued, f)
    ensures m.In(f)
  {
    var x :| x in h.issued && BlockHas(x, h.issued[x], f);
    assert Slab.BlockOk(h.slabs, h.owner, m, x, h.issued[x]);
    assert m.UsedAt(f, h.issued[x].order);
  }

  // ------------------------------------------------------------------------------- what is translated

  /** What the page table is to translate address `v` to. */
  function Expected(m: map<nat, Entry>, v: nat): Option<Leaf> {
    var p := v / PAGE_SIZE;
    if p in m then Some(Leaf(m[p].frame * PAGE_SIZE + v % PAGE_SIZE, AttrsFor(m[p].perm))) else None
  }

  /** The page table translates exactly the pages in `m`. */
  ghost predicate Translates(t: P.PageTable, m: map<nat, Entry>)
    reads t
  {
    t.Valid() && t.Plain() && Translated(t.mem, t.root, m)
  }

  ghost predicate Translated(mem: Mem, root: nat, m: map<nat, Entry>) {
    forall v: nat :: v < VA_LIMIT ==> Walk(mem, root, 0, v) == Expected(m, v)
  }

  lemma PageTranslated(m0: Mem, m1: Mem, root: nat, m: map<nat, Entry>, p: nat, frame: nat, perm: Flags, va: nat,
                       stop: nat)
    requires Translated(m0, root, m) && va == p * PAGE_SIZE && stop == va + PAGE_SIZE
    requires P.Remapped(m0, m1, root, va, stop, Some(Leaf(frame * PAGE_SIZE, AttrsFor(perm))))
    ensures Translated(m1, root, m + Run(p, 1, frame, perm))
  {
    forall v: nat | v < VA_LIMIT
      ensures Walk(m1, root, 0, v) == Expected(m + Run(p, 1, frame, perm), v)
    {
      RunExpected(m, p, 1, frame, perm, v);
    }
  }

  /** map_range_in_pgtbl for one page, when the frames for its tables are there. */
  method MapPage(t: P.PageTable, p: nat, va: nat, frame: nat, perm: Flags, ghost m: map<nat, Entry>)
    requires Translates(t, m) && va == p * PAGE_SIZE && (p + 1) * PAGE_SIZE <= VA_LIMIT
             && (frame + 1) * PAGE_SIZE <= PA_LIMIT
             && |t.supply| >= |N.Lacks(t.at.Keys, va, 3)|
    modifies t`mem, t`at, t`supply
    ensures Translates(t, m + Run(p, 1, frame, perm))
    ensures t.at.Keys == old(t.at).Keys + N.Lacks(old(t.at).Keys, va, 3)
            && |t.supply| == |old(t.supply)| - |N.Lacks(old(t.at).Keys, va, 3)|
  {
    var pa := frame * PAGE_SIZE;
    ghost var stop, m0 := P.End(va, PAGE_SIZE), t.mem;
    OnePage(p, va, stop);
    OnePage(frame, pa, P.End(pa, PAGE_SIZE));
    N.EntryLacks(t.at.Keys, va, stop, 3);
    P.ClearSub(t.mem, t.at, 0, VA_LIMIT, va, stop, 3);
    t.MapRange(va, pa, PAGE_SIZE, perm);
    PageTranslated(m0, t.mem, t.root, m, p, frame, perm, va, stop);
  }

  lemma OnePage(p: nat, va: nat, stop: nat)
    requires va == p * PAGE_SIZE && stop == P.End(va, PAGE_SIZE)
    ensures Aligned(va, 3) && RoundUp(PAGE_SIZE) == PAGE_SIZE && stop == va + PAGE_SIZE == (p + 1) * PAGE_SIZE
  {
    P.AddPages(0, p);
    PageUp();
  }

  lemma PageUp()
    ensures RoundUp(PAGE_SIZE) == PAGE_SIZE
  {
  }

  lemma RunExpected(m: map<nat, Entry>, p: nat, n: nat, frame: nat, perm: Flags, v: nat)
    ensures Expected(m + Run(p, n, frame, perm), v) ==
            if p * PAGE_SIZE <= v < p * PAGE_SIZE + n * PAGE_SIZE
            then Some(Leaf(frame * PAGE_SIZE + (v - p * PAGE_SIZE), AttrsFor(perm)))
            else Expected(m, v)
  {
    var q := v / PAGE_SIZE;
    assert p <= q < p + n <==> p * PAGE_SIZE <= v < p * PAGE_SIZE + n * PAGE_SIZE;
  }

  /** Addresses outside [va, stop) are translated as before. */
  ghost predicate KeptOutside(m0: Mem, m1: Mem, root: nat, va: nat, stop: nat) {
    forall v: nat :: v < VA_LIMIT && !(va <= v < stop) ==> Walk(m1, root, 0, v) == Walk(m0, root, 0, v)
  }

  /** A run of pages in the map is a range of addresses with what the permissions grant. */
  lemma RunMaps(m0: Mem, m1: Mem, root: nat, m: map<nat, Entry>, p: nat, n: nat, frame: nat, perm: Flags, va: nat,
                stop: nat)
    requires Translated(m0, root, m) && Translated(m1, root, m + Run(p, n, frame, perm))
    requires va == p * PAGE_SIZE && stop == va + n * PAGE_SIZE <= VA_LIMIT
    ensures P.MapsTo(m1, root, va, stop, frame * PAGE_SIZE, perm) && KeptOutside(m0, m1, root, va, stop)
  {
    AttrsGrant(perm);
    forall v: nat | v < VA_LIMIT
      ensures va <= v < stop ==> Walk(m1, root, 0, v) == Some(Leaf(frame * PAGE_SIZE + (v - va), AttrsFor(perm)))
      ensures !(va <= v < stop) ==> Walk(m1, root, 0, v) == Walk(m0, root, 0, v)
    {
      RunExpected(m, p, n, frame, perm, v);
    }
  }

  /** All pages of an object that is prepared are translated from the page of `va` on, with what the permissions grant,
      and no other address is translated differently; for an object that is not, none is. */
  ghost predicate FilledTo(m0: Mem, m1: Mem, root: nat, va: nat, b: Pmo, perm: Flags) {
    if b.kind.Prepared() then
      P.MapsTo(m1, root, PageStart(va), RunEnd(va, b.pages), b.start * PAGE_SIZE, perm)
      && KeptOutside(m0, m1, root, PageStart(va), RunEnd(va, b.pages))
    else P.Agree(m1, root, m0, root)
  }

  /** A page that is new in the map changes the translation of no other page. */
  lemma PageKept(s: State, s': State, m0: Mem, m1: Mem, root: nat, a: nat, addr: nat)
    requires OnlyPage(s, s', a, addr / PAGE_SIZE)
    requires Translated(m0, root, s.spaces[a].table) && Translated(m1, root, s'.spaces[a].table)
    ensures KeptOutside(m0, m1, root, PageStart(addr), RunEnd(addr, 1))
  {
    forall v: nat | v < VA_LIMIT && !(PageStart(addr) <= v < RunEnd(addr, 1))
      ensures Walk(m1, root, 0, v) == Walk(m0, root, 0, v)
    {
      assert v / PAGE_SIZE != addr / PAGE_SIZE;
    }
  }

  /** What one page more lacks, and that it is not more than the whole range lacks. */
  lemma PageStep(k0: set<Node>, k1: set<Node>, va: nat, cva: nat, next: nat, stop: nat, q: nat)
    requires k1 == k0 + N.Missing(k0, va, cva, 3) && cva == q * PAGE_SIZE && next == cva + PAGE_SIZE
             && va <= cva && next <= stop
    ensures |N.Missing(k0, va, next, 3)| == |N.Missing(k0, va, cva, 3)| + |N.Lacks(k1, cva, 3)|
            && |N.Missing(k0, va, next, 3)| <= |N.Missing(k0, va, stop, 3)|
    ensures k0 + N.Missing(k0, va, next, 3) == k1 + N.Lacks(k1, cva, 3)
  {
    P.AddPages(0, q);
    N.MissingNext(k0, k1, va, cva, next, 3);
    N.MissingSub(k0, va, stop, va, next, 3);
  }

  /** The address of the page of `addr`. */
  function PageStart(addr: nat): nat {
    addr / PAGE_SIZE * PAGE_SIZE
  }

  /** Where `pages` pages from that one on end. */
  function RunEnd(addr: nat, pages: nat): nat {
    (addr / PAGE_SIZE + pages) * PAGE_SIZE
  }

  lemma PageFits(addr: nat, p: nat)
    requires addr < VA_LIMIT && p == addr / PAGE_SIZE
    ensures PageStart(addr) == p * PAGE_SIZE && (p + 1) * PAGE_SIZE <= VA_LIMIT
  {
  }

  /** Space `a` with `n` pages more in its page table. */
  ghost function WithRun(spaces: seq<Space>, a: nat, p: nat, n: nat, frame: nat, perm: Flags): seq<Space>
    requires a < |spaces|
  {
    spaces[a := Space(spaces[a].regions, spaces[a].table + Run(p, n, frame, perm))]
  }

  lemma RunZero(spaces: seq<Space>, a: nat, p: nat, frame: nat, perm: Flags)
    requires a < |spaces|
    ensures WithRun(spaces, a, p, 0, frame, perm) == spaces
  {
    assert spaces[a].table + map[] == spaces[a].table;
  }

  lemma RunBounds(p: nat, i: nat, n: nat, cva: nat, stop: nat, frame: nat)
    requires i < n && cva == (p + i) * PAGE_SIZE && stop == (p + n) * PAGE_SIZE
    ensures cva + PAGE_SIZE <= stop && (frame + i + 1) * PAGE_SIZE <= (frame + n) * PAGE_SIZE
  {
  }

  /** A page more to the run. */
  lemma RunNext(spaces: seq<Space>, a: nat, p: nat, i: nat, j: nat, q: nat, frame: nat, g: nat, perm: Flags)
    requires a < |spaces| && j == i + 1 && q == p + i && g == frame + i
    ensures WithRun(WithRun(spaces, a, p, i, frame, perm), a, q, 1, g, perm) == WithRun(spaces, a, p, j, frame, perm)
  {
    var m := spaces[a].table;
    assert m + Run(p, i, frame, perm) + Run(q, 1, g, perm) == m + Run(p, j, frame, perm);
  }

  method EmptyTable(root: nat) returns (t: P.PageTable)
    ensures fresh(t) && Translates(t, map[]) && t.root == root && t.frames == {}
  {
    t := new P.PageTable(root, []);
  }

  // ------------------------------------------------------------------------------- the frames of the tables

  /** The frames given to page tables lie in blocks that are out, and are pages of no memory object. */
  ghost predicate Separate(issued: map<nat, Slab.Block>, pmos: seq<Pmo>, owner: map<nat, nat>) {
    forall f :: f in owner ==> InBlock(issued, f) && FreshFrame(State(pmos, []), f)
  }

  /** The frames given to a page table, and its root page, are recorded for its space. */
  ghost predicate OwnFrames(root: nat, frames: set<nat>, owner: map<nat, nat>, a: nat) {
    forall f :: f == root || f in frames ==> f in owner && owner[f] == a
  }

  lemma OwnMore(root: nat, frames: set<nat>, owner: map<nat, nat>, a: nat, f: nat, b: nat)
    requires OwnFrames(root, frames, owner, a) && f !in owner
    ensures OwnFrames(root, frames, owner[f := b], a) && f != root && f !in frames
    ensures a == b ==> OwnFrames(root, frames + {f}, owner[f := b], a)
  {
  }

  lemma SeparateMore(issued: map<nat, Slab.Block>, s: State, owner: map<nat, nat>, f: nat, a: nat)
    requires Separate(issued, s.pmos, owner) && InBlock(issued, f) && FreshFrame(s, f)
    ensures Separate(issued, s.pmos, owner[f := a])
  {
    assert FreshFrame(State(s.pmos, []), f);
  }

  lemma SeparateKept(before: map<nat, Slab.Block>, after: map<nat, Slab.Block>, pmos: seq<Pmo>, owner: map<nat, nat>,
                     x: nat)
    requires Separate(before, pmos, owner) && x !in before && x in after && after == before[x := after[x]]
    ensures Separate(after, pmos, owner)
  {
    forall f | f in owner
      ensures InBlock(after, f)
    {
      InBlockMore(before, x, after[x], f);
    }
  }

  /** A page of its own for a memory object is no page of a table. */
  lemma SeparateRecord(issued: map<nat, Slab.Block>, s: State, owner: map<nat, nat>, o: nat, index: nat, f: nat)
    requires Separate(issued, s.pmos, owner) && f !in owner && o < |s.pmos| && s.pmos[o].kind == Lazy
    ensures Separate(issued, Record(s, o, index, f).pmos, owner)
  {
    var pmos := Record(s, o, index, f).pmos;
    forall g | g in owner
      ensures FreshFrame(State(pmos, []), g)
    {
      FreshAfterRecord(s, o, index, f, g);
    }
  }

  lemma FreshAfterRecord(s: State, o: nat, index: nat, f: nat, g: nat)
    requires FreshFrame(State(s.pmos, []), g) && g != f && o < |s.pmos| && s.pmos[o].kind == Lazy
    ensures FreshFrame(State(Record(s, o, index, f).pmos, []), g)
  {
    var t := State(Record(s, o, index, f).pmos, []);
    forall p: nat, i: nat | p < |t.pmos| && t.pmos[p].kind.Owns()
      ensures t.pmos[p].Frame(i) != Some(g)
    {
      assert State(s.pmos, []).pmos[p].Frame(i) != Some(g);
      assert p != o || i != index ==> t.pmos[p].Frame(i) == s.pmos[p].Frame(i);
    }
  }

  /** Nor are the pages of a new object, if they are no pages of tables. */
  lemma SeparateNew(issued: map<nat, Slab.Block>, pmos: seq<Pmo>, owner: map<nat, nat>, kind: Kind, pages: nat,
                    start: nat)
    requires Separate(issued, pmos, owner)
    requires kind == Data || kind == Nocache ==> forall g: nat :: start <= g < start + pages ==> g !in owner
    ensures Separate(issued, pmos + [Pmo(kind, pages, start, map[])], owner)
  {
    var all := pmos + [Pmo(kind, pages, start, map[])];
    forall f | f in owner
      ensures FreshFrame(State(all, []), f)
    {
      forall o: nat, i: nat | o < |all| && all[o].kind.Owns()
        ensures all[o].Frame(i) != Some(f)
      {
        assert o < |pmos| ==> State(pmos, []).pmos[o].Frame(i) != Some(f);
      }
    }
  }

  // --------------------------------------------------------------------------------- the code in place

  /** How a call ends: `Stopped` stands for a stop of the kernel, `NoTables` for the one when there is no page for a
      page table. */
  datatype Outcome = Done | NoRegion | Stopped | NoTables

  class AddressSpaces {
    const heap: K.KernelHeap
    var pmos: seq<Pmo>
    /** The regions and the page table of each space. */
    var regions: seq<seq<Region>>
    var tables: seq<P.PageTable>
    ghost var spaces: seq<Space>
    /** Which space a frame was given to for its page table. */
    ghost var owner: map<nat, nat>

    ghost function View(): State
      reads this`pmos, this`spaces
    {
      State(pmos, spaces)
    }

    /** The lists and the page tables are those of the spaces, and each page table has frames of its own. */
    ghost predicate Linked()
      reads this`regions, this`tables, this`spaces, this`owner, tables
    {
      && |regions| == |tables| == |spaces| && NoDup(tables)
      && (forall a :: 0 <= a < |tables| ==> regions[a] == spaces[a].regions && Translates(tables[a], spaces[a].table))
      && (forall a :: 0 <= a < |tables| ==> OwnFrames(tables[a].root, tables[a].frames, owner, a))
    }

    /** The heap is in order, and frame 0 and frames beyond the physical address space are not part of its memory. */
    ghost predicate HeapOk()
      reads this`pmos, this`owner, heap, heap.pool.order, heap.pool.taken, heap.pool.freeList, heap.pool.nrFree
    {
      && heap.Valid() && Owned(heap.issued, pmos) && Separate(heap.issued, pmos, owner)
      && 0 < heap.pool.lo && (heap.pool.lo + heap.pool.order.Length) * PAGE_SIZE <= PA_LIMIT
    }

    ghost predicate Valid()
      reads this, tables, heap, heap.pool.order, heap.pool.taken, heap.pool.freeList, heap.pool.nrFree
    {
      Coherent(View()) && Linked() && HeapOk()
    }

    /** How many frames the heap has left. */
    ghost function Left(): nat
      reads heap.pool.order, heap.pool.taken, heap.pool.freeList, heap.pool.nrFree
    {
      |K.FreeFrames(heap.Meta())|
    }

    /** How many tables can still be made in page table `t`. */
    ghost function Budget(t: P.PageTable): nat
      reads t`supply
      reads heap.pool.order, heap.pool.taken, heap.pool.freeList, heap.pool.nrFree
    {
      Left() + |t.supply|
    }

    constructor (heap: K.KernelHeap)
      requires heap.Valid() && 0 < heap.pool.lo && (heap.pool.lo + heap.pool.order.Length) * PAGE_SIZE <= PA_LIMIT
      ensures Valid() && this.heap == heap && View() == EMPTY
    {
      this.heap := heap;
      pmos, regions, tables, spaces, owner := [], [], [], [], map[];
    }

    /** get_pages for one page. */
    method TakeFrame() returns (f: Option<nat>)
      requires HeapOk()
      modifies heap`issued, heap.pool.order, heap.pool.taken, heap.pool.freeList, heap.pool.nrFree
      ensures HeapOk() && (f.None? <==> old(Left()) == 0) && (f.None? ==> Left() == 0)
      ensures f.Some? ==> Left() == old(Left()) - 1 && FreshFrame(View(), f.value) && f.value !in owner
                          && InBlock(heap.issued, f.value) && (f.value + 1) * PAGE_SIZE <= PA_LIMIT
    {
      ghost var before, m := heap.issued, heap.Meta();
      K.NoRunOfOne(m);
      var x := heap.AllocPages(0);
      if x.None? {
        return None;
      }
      f := Some(x.value / PAGE_SIZE);
      OneTaken(m, heap.Meta(), f.value);
      PageOf(heap.View(), heap.Meta(), x.value);
      NewBlock(heap.View(), heap.Meta(), before, x.value, f.value);
      OwnedKept(before, heap.issued, pmos, x.value);
      SeparateKept(before, heap.issued, pmos, owner, x.value);
      FreshOutside(before, View(), f.value);
    }

    /** vmspace_init: a space with an empty page table; false if there is no page for its root. */
    method NewSpace() returns (ok: bool)
      requires Valid()
      modifies this`regions, this`tables, this`spaces, this`owner
      modifies heap`issued, heap.pool.order, heap.pool.taken, heap.pool.freeList, heap.pool.nrFree
      ensures Valid() && (ok <==> old(Left()) > 0) && (!ok ==> View() == old(View()) && tables == old(tables))
      ensures ok ==> View() == Step(old(View()), DemandPaging.NewSpace) && |tables| == |old(tables)| + 1
                     && tables[..|old(tables)|] == old(tables) && fresh(tables[|old(tables)|])
    {
      StepGood(View(), DemandPaging.NewSpace);
      var f := TakeFrame();
      ok := f.Some?;
      if ok {
        AddSpace(f.value);
      }
    }

    method AddSpace(f: nat)
      requires Linked() && HeapOk() && f !in owner && InBlock(heap.issued, f) && FreshFrame(View(), f)
      modifies this`regions, this`tables, this`spaces, this`owner
      ensures Linked() && HeapOk() && View() == State(pmos, old(spaces) + [Space([], map[])])
      ensures |tables| == |old(tables)| + 1 && tables[..|old(tables)|] == old(tables) && fresh(tables[|old(tables)|])
    {
      var t := EmptyTable(f);
      SeparateMore(heap.issued, View(), owner, f, |tables|);
      forall b | 0 <= b < |tables|
        ensures OwnFrames(tables[b].root, tables[b].frames, owner[f := |tables|], b)
      {
        OwnMore(tables[b].root, tables[b].frames, owner, b, f, |tables|);
      }
      Link(t, f);
    }

    method Link(t: P.PageTable, f: nat)
      requires Linked() && t !in tables && Translates(t, map[]) && t.root == f && t.frames == {}
      requires forall b :: 0 <= b < |tables| ==> OwnFrames(tables[b].root, tables[b].frames, owner[f := |tables|], b)
      modifies this`regions, this`tables, this`spaces, this`owner
      ensures Linked() && owner == old(owner)[f := |old(tables)|] && spaces == old(spaces) + [Space([], map[])]
      ensures tables == old(tables) + [t]
    {
      owner := owner[f := |tables|];
      regions := regions + [[]];
      tables := tables + [t];
      spaces := spaces + [Space([], map[])];
    }

    /** commit_page_to_pmo with a page from get_pages; None if there is none. */
    method CommitPage(o: nat, index: nat) returns (frame: Option<nat>)
      requires HeapOk() && o < |pmos| && pmos[o].kind == Lazy && index !in pmos[o].radix
      modifies this`pmos, heap`issued, heap.pool.order, heap.pool.taken, heap.pool.freeList, heap.pool.nrFree
      ensures HeapOk() && (frame.None? <==> old(Left()) == 0)
      ensures frame.None? ==> pmos == old(pmos)
      ensures frame.Some? ==> Left() == old(Left()) - 1 && FreshFrame(old(View()), frame.value)
                              && View() == Record(old(View()), o, index, frame.value)
    {
      ghost var s := View();
      frame := TakeFrame();
      if frame.Some? {
        OwnedRecord(heap.issued, s, o, index, frame.value);
        SeparateRecord(heap.issued, s, owner, o, index, frame.value);
        pmos := pmos[o := pmos[o].(radix := pmos[o].radix[index := frame.value])];
      }
    }

    /** A page for the next table of space `a`. */
    method TakeTable(a: nat, t: P.PageTable) returns (ok: bool)
      requires Linked() && HeapOk() && a < |tables| && t == tables[a]
      modifies this`owner, t`supply, t`frames
      modifies heap`issued, heap.pool.order, heap.pool.taken, heap.pool.freeList, heap.pool.nrFree
      ensures Linked() && HeapOk() && Budget(t) == old(Budget(t)) && (ok <==> old(Left()) > 0)
      ensures |t.supply| == |old(t.supply)| + (if ok then 1 else 0)
    {
      var f := TakeFrame();
      ok := f.Some?;
      if ok {
        GiveFrame(a, t, f.value);
      }
    }

    method GiveFrame(a: nat, t: P.PageTable, f: nat)
      requires Linked() && HeapOk() && a < |tables| && t == tables[a] && (f + 1) * PAGE_SIZE <= PA_LIMIT
      requires f !in owner && InBlock(heap.issued, f) && FreshFrame(View(), f)
      modifies this`owner, t`supply, t`frames
      ensures Linked() && HeapOk() && t.supply == old(t.supply) + [f]
    {
      SeparateMore(heap.issued, View(), owner, f, a);
      GiveTable(a, t, f);
      HeapGiven();
    }

    method GiveTable(a: nat, t: P.PageTable, f: nat)
      requires Linked() && a < |tables| && t == tables[a] && (f + 1) * PAGE_SIZE <= PA_LIMIT && f !in owner
      modifies this`owner, t`supply, t`frames
      ensures Linked() && t.supply == old(t.supply) + [f] && owner == old(owner)[f := a]
    {
      assert Translates(t, spaces[a].table) && OwnFrames(t.root, t.frames, owner, a);
      forall b | 0 <= b < |tables|
        ensures OwnFrames(tables[b].root, if b == a then t.frames + {f} else tables[b].frames, owner[f := a], b)
      {
        OwnMore(tables[b].root, tables[b].frames, owner, b, f, a);
      }
      OwnMore(t.root, t.frames, owner, a, f, a);
      t.AddFrame(f);
      owner := owner[f := a];
    }

    /** A frame recorded for a page table leaves the heap in order, if no object has it. */
    twostate lemma HeapGiven()
      requires old(HeapOk()) && unchanged(heap, heap.pool.order, heap.pool.taken, heap.pool.freeList, heap.pool.nrFree)
      requires pmos == old(pmos) && Separate(heap.issued, pmos, owner)
      ensures HeapOk()
    {
    }

    /** Pages for the tables that address `va` lacks. */
    method TakeTables(a: nat, t: P.PageTable, va: nat) returns (ok: bool)
      requires Linked() && HeapOk() && a < |tables| && t == tables[a] && va < VA_LIMIT
      modifies this`owner, t`supply, t`frames
      modifies heap`issued, heap.pool.order, heap.pool.taken, heap.pool.freeList, heap.pool.nrFree
      ensures Linked() && HeapOk() && Budget(t) == old(Budget(t))
      ensures ok <==> old(Budget(t)) >= |N.Lacks(t.at.Keys, va, 3)|
      ensures ok ==> |t.supply| >= |N.Lacks(t.at.Keys, va, 3)|
    {
      assert Translates(t, spaces[a].table);
      var need := t.TablesFor(va);
      ok := true;
      while |t.supply| < need
        invariant Linked() && HeapOk() && Budget(t) == old(Budget(t))
        decreases need - |t.supply|
      {
        ok := TakeTable(a, t);
        if !ok {
          return;
        }
      }
    }

    /** map_range_in_pgtbl for one page of space `a`; false if there are no pages for its tables. */
    method EnterPage(a: nat, t: P.PageTable, p: nat, va: nat, frame: nat, perm: Flags) returns (ok: bool)
      requires Linked() && HeapOk() && a < |tables| && t == tables[a]
      requires va == p * PAGE_SIZE && (p + 1) * PAGE_SIZE <= VA_LIMIT && (frame + 1) * PAGE_SIZE <= PA_LIMIT
      modifies this`spaces, this`owner, t
      modifies heap`issued, heap.pool.order, heap.pool.taken, heap.pool.freeList, heap.pool.nrFree
      ensures Linked() && HeapOk() && a < |old(spaces)|
      ensures ok <==> old(Budget(t)) >= |N.Lacks(old(t.at).Keys, va, 3)|
      ensures ok ==> Budget(t) == old(Budget(t)) - |N.Lacks(old(t.at).Keys, va, 3)|
                     && t.at.Keys == old(t.at).Keys + N.Lacks(old(t.at).Keys, va, 3)
      ensures spaces == if ok then WithRun(old(spaces), a, p, 1, frame, perm) else old(spaces)
    {
      ok := TakeTables(a, t, va);
      if ok {
        Enter(a, t, p, va, frame, perm);
      }
    }

    method Enter(a: nat, t: P.PageTable, p: nat, va: nat, frame: nat, perm: Flags)
      requires Linked() && HeapOk() && a < |tables| && t == tables[a]
      requires va == p * PAGE_SIZE && (p + 1) * PAGE_SIZE <= VA_LIMIT && (frame + 1) * PAGE_SIZE <= PA_LIMIT
               && |t.supply| >= |N.Lacks(t.at.Keys, va, 3)|
      modifies this`spaces, t`mem, t`at, t`supply
      ensures Linked() && HeapOk() && a < |old(spaces)| && spaces == WithRun(old(spaces), a, p, 1, frame, perm)
      ensures t.at.Keys == old(t.at).Keys + N.Lacks(old(t.at).Keys, va, 3)
              && |t.supply| == |old(t.supply)| - |N.Lacks(old(t.at).Keys, va, 3)|
    {
      EnterTable(a, t, p, va, frame, perm);
      HeapKept();
    }

    /** What changes only the spaces and the page tables leaves the heap in order. */
    twostate lemma HeapKept()
      requires old(HeapOk()) && unchanged(heap, heap.pool.order, heap.pool.taken, heap.pool.freeList, heap.pool.nrFree)
      requires pmos == old(pmos) && owner == old(owner)
      ensures HeapOk()
    {
    }

    method EnterTable(a: nat, t: P.PageTable, p: nat, va: nat, frame: nat, perm: Flags)
      requires Linked() && a < |tables| && t == tables[a]
      requires va == p * PAGE_SIZE && (p + 1) * PAGE_SIZE <= VA_LIMIT && (frame + 1) * PAGE_SIZE <= PA_LIMIT
               && |t.supply| >= |N.Lacks(t.at.Keys, va, 3)|
      modifies this`spaces, t`mem, t`at, t`supply
      ensures Linked() && a < |old(spaces)| && spaces == WithRun(old(spaces), a, p, 1, frame, perm)
      ensures t.at.Keys == old(t.at).Keys + N.Lacks(old(t.at).Keys, va, 3)
              && |t.supply| == |old(t.supply)| - |N.Lacks(old(t.at).Keys, va, 3)|
    {
      assert Translates(t, spaces[a].table);
      ghost var m := spaces[a].table;
      MapPage(t, p, va, frame, perm, m);
      Entered(a, t, m + Run(p, 1, frame, perm));
    }

    /** The page table of space `a` changed to translate `m`. */
    ghost method Entered(a: nat, t: P.PageTable, m: map<nat, Entry>)
      requires |regions| == |tables| == |spaces| && NoDup(tables) && a < |tables| && t == tables[a] && Translates(t, m)
      requires forall b :: 0 <= b < |tables| && b != a ==> Translates(tables[b], spaces[b].table)
      requires forall b :: 0 <= b < |tables| ==>
                 regions[b] == spaces[b].regions && OwnFrames(tables[b].root, tables[b].frames, owner, b)
      modifies this`spaces
      ensures Linked() && spaces == old(spaces)[a := Space(old(spaces)[a].regions, m)]
    {
      spaces := spaces[a := Space(spaces[a].regions, m)];
    }

    /** How far a run of pages has come: `i` of them, up to address `cva`, are in the page table. */
    ghost predicate EnteredTo(a: nat, t: P.PageTable, s0: seq<Space>, k0: set<Node>, b0: nat, p: nat, i: nat,
                              frame: nat,
                              perm: Flags, va: nat, cva: nat)
      reads this`spaces, t`at, t`supply
      reads heap.pool.order, heap.pool.taken, heap.pool.freeList, heap.pool.nrFree
    {
      && a < |s0| && spaces == WithRun(s0, a, p, i, frame, perm) && cva == (p + i) * PAGE_SIZE
      && t.at.Keys == k0 + N.Missing(k0, va, cva, 3) && Budget(t) + |N.Missing(k0, va, cva, 3)| == b0
    }

    /** One page of a run. */
    method EnterNext(a: nat, t: P.PageTable, p: nat, i: nat, ghost j: nat, frame: nat, perm: Flags,
                     ghost s0: seq<Space>,
                     ghost k0: set<Node>, ghost b0: nat, ghost va: nat, cva: nat, ghost next: nat, ghost stop: nat)
      returns (ok: bool)
      requires Linked() && HeapOk() && a < |tables| && t == tables[a] && va <= cva
      requires EnteredTo(a, t, s0, k0, b0, p, i, frame, perm, va, cva) && next == cva + PAGE_SIZE <= stop <= VA_LIMIT
      requires j == i + 1 && (frame + j) * PAGE_SIZE <= PA_LIMIT
      modifies this`spaces, this`owner, t
      modifies heap`issued, heap.pool.order, heap.pool.taken, heap.pool.freeList, heap.pool.nrFree
      ensures Linked() && HeapOk()
      ensures ok ==> EnteredTo(a, t, s0, k0, b0, p, j, frame, perm, va, next)
      ensures !ok ==> b0 < |N.Missing(k0, va, stop, 3)|
    {
      var q, g := p + i, frame + i;
      ghost var k1 := t.at.Keys;
      PageStep(k0, k1, va, cva, next, stop, q);
      RunNext(s0, a, p, i, j, q, frame, g, perm);
      ok := EnterPage(a, t, q, cva, g, perm);
    }

    /** map_range_in_pgtbl for `n` pages of space `a`.  It stops for want of a page exactly if the tables that the
        range lacks are more than the pages that are left. */
    method EnterRun(a: nat, t: P.PageTable, p: nat, n: nat, frame: nat, perm: Flags, va: nat, ghost stop: nat)
      returns (ok: bool)
      requires Linked() && HeapOk() && a < |tables| && t == tables[a] && va == p * PAGE_SIZE
      requires stop == (p + n) * PAGE_SIZE <= VA_LIMIT && (frame + n) * PAGE_SIZE <= PA_LIMIT
      modifies this`spaces, this`owner, t
      modifies heap`issued, heap.pool.order, heap.pool.taken, heap.pool.freeList, heap.pool.nrFree
      ensures Linked() && HeapOk() && a < |old(spaces)|
      ensures ok <==> old(Budget(t)) >= |N.Missing(old(t.at).Keys, va, stop, 3)|
      ensures ok ==> spaces == WithRun(old(spaces), a, p, n, frame, perm)
    {
      ghost var s0, k0, b0 := spaces, t.at.Keys, Budget(t);
      NothingEntered(a, t, p, frame, perm, va);
      var cva, i := va, 0;
      ok := true;
      while i < n && ok
        invariant Linked() && HeapOk() && va <= cva && i <= n && (!ok ==> b0 < |N.Missing(k0, va, stop, 3)|)
        invariant ok ==> EnteredTo(a, t, s0, k0, b0, p, i, frame, perm, va, cva)
        decreases n - i, ok
      {
        var next := cva + PAGE_SIZE;
        var j := i + 1;
        RunBounds(p, i, n, cva, stop, frame);
        ok := EnterNext(a, t, p, i, j, frame, perm, s0, k0, b0, va, cva, next, stop);
        cva, i := next, j;
      }
      if ok {
        AllEntered(a, t, s0, k0, b0, p, i, n, frame, perm, va, cva, stop);
      }
    }

    lemma AllEntered(a: nat, t: P.PageTable, s0: seq<Space>, k0: set<Node>, b0: nat, p: nat, i: nat, n: nat, frame: nat,
                     perm: Flags, va: nat, cva: nat, stop: nat)
      requires EnteredTo(a, t, s0, k0, b0, p, i, frame, perm, va, cva) && i == n && stop == (p + n) * PAGE_SIZE
      ensures b0 >= |N.Missing(k0, va, stop, 3)| && spaces == WithRun(s0, a, p, n, frame, perm)
    {
    }

    lemma NothingEntered(a: nat, t: P.PageTable, p: nat, frame: nat, perm: Flags, va: nat)
      requires a < |spaces| && va == p * PAGE_SIZE
      ensures EnteredTo(a, t, spaces, t.at.Keys, Budget(t), p, 0, frame, perm, va, va)
    {
      RunZero(spaces, a, p, frame, perm);
      N.NoneMissing(t.at.Keys, va, 3);
    }

    /** The prepared pages of an object for which there are no tables in space `a`. */
    ghost predicate TooMany(t: P.PageTable, va: nat, b: Pmo)
      reads t`at, t`supply
      reads heap.pool.order, heap.pool.taken, heap.pool.freeList, heap.pool.nrFree
    {
      b.kind.Prepared() &&
      Budget(t) < |N.Missing(t.at.Keys, PageStart(va), RunEnd(va, b.pages), 3)|
    }

    /** vmspace_map_range.  The kernel stops when the region collides with another, and when there are no pages for
        the tables.  Else the spaces stay coherent exactly if the mapping is harmless. */
    method VmspaceMapRange(a: nat, t: P.PageTable, va: nat, len: nat, perm: Flags, o: nat) returns (ret: Outcome)
      requires Valid() && a < |tables| && t == tables[a] && o < |pmos|
      requires pmos[o].kind.Prepared() ==>
                 && RunEnd(va, pmos[o].pages) <= VA_LIMIT
                 && (pmos[o].start + pmos[o].pages) * PAGE_SIZE <= PA_LIMIT
      modifies this`regions, this`spaces, this`owner, t
      modifies heap`issued, heap.pool.order, heap.pool.taken, heap.pool.freeList, heap.pool.nrFree
      ensures Linked() && HeapOk() && ret != NoRegion
      ensures ret == Stopped <==> !Enabled(old(View()), MapRange(a, va, len, perm, o))
      ensures ret == Stopped <==> exists j :: 0 <= j < |old(regions)[a]| && Refused(va, len, old(regions)[a][j])
      ensures ret == Done ==> Placed(old(regions)[a], regions[a], va, len, perm, pmos[o].kind, o)
                              && regions == old(regions)[a := regions[a]]
      ensures ret == Done ==> FilledTo(old(t.mem), t.mem, t.root, va, pmos[o], regions[a][0].perm)
      ensures ret == NoTables <==>
                Enabled(old(View()), MapRange(a, va, len, perm, o)) && old(TooMany(t, va, pmos[o]))
      ensures ret == Done ==> View() == Step(old(View()), MapRange(a, va, len, perm, o))
      ensures ret == Done ==> (Valid() <==> Sane(old(View()), MapRange(a, va, len, perm, o)))
      ensures ret == Stopped ==> View() == old(View())
    {
      ghost var s := View();
      var r := NewRegion(va, len, perm, pmos[o].kind, o);
      MapDecides(s, a, va, len, perm, o);
      assert regions[a] == spaces[a].regions;
      ret := AddVmr(a, t, r, va);
    }

    /** add_vmr_to_vmspace and what follows it. */
    method AddVmr(a: nat, t: P.PageTable, r: Region, va: nat) returns (ret: Outcome)
      requires Linked() && HeapOk() && a < |tables| && t == tables[a] && r.pmo < |pmos|
      requires r.start / PAGE_SIZE == va / PAGE_SIZE
      requires var b := pmos[r.pmo];
               b.kind.Prepared() ==>
                 && RunEnd(va, b.pages) <= VA_LIMIT && (b.start + b.pages) * PAGE_SIZE <= PA_LIMIT
      modifies this`regions, this`spaces, this`owner, t
      modifies heap`issued, heap.pool.order, heap.pool.taken, heap.pool.freeList, heap.pool.nrFree
      ensures Linked() && HeapOk() && ret != NoRegion && a < |old(spaces)|
      ensures ret == Stopped <==> !NoCollision(old(spaces)[a], r)
      ensures ret == NoTables <==> NoCollision(old(spaces)[a], r) && old(TooMany(t, va, pmos[r.pmo]))
      ensures ret == Done ==> View() == AddRegion(old(View()), a, r)
      ensures ret == Done ==> FilledTo(old(t.mem), t.mem, t.root, va, pmos[r.pmo], r.perm)
      ensures ret == Stopped ==> View() == old(View())
    {
      ghost var s, m0 := View(), t.mem;
      assert regions[a] == spaces[a].regions && Translates(t, spaces[a].table);
      var hit := CheckIntersect(regions[a], r);
      if hit {
        return Stopped;
      }
      var ok := FillPages(a, t, r, va);
      ret := if ok then Done else NoTables;
      if ok {
        assert Translates(t, spaces[a].table);
        FilledSo(s, m0, t.mem, t.root, a, r, va);
      }
    }

    /** The new region in its list, and the pages of an object that is prepared in the page table. */
    method FillPages(a: nat, t: P.PageTable, r: Region, va: nat) returns (ok: bool)
      requires Linked() && HeapOk() && a < |tables| && t == tables[a] && r.pmo < |pmos|
      requires r.start / PAGE_SIZE == va / PAGE_SIZE
      requires var b := pmos[r.pmo];
               b.kind.Prepared() ==>
                 && RunEnd(va, b.pages) <= VA_LIMIT && (b.start + b.pages) * PAGE_SIZE <= PA_LIMIT
      modifies this`regions, this`spaces, this`owner, t
      modifies heap`issued, heap.pool.order, heap.pool.taken, heap.pool.freeList, heap.pool.nrFree
      ensures Linked() && HeapOk() && (ok <==> !old(TooMany(t, va, pmos[r.pmo]))) && a < |old(spaces)|
      ensures ok ==> View() == AddRegion(old(View()), a, r)
    {
      ghost var s := View();
      var b, p := pmos[r.pmo], va / PAGE_SIZE;
      AddToList(a, r);
      ok := true;
      if b.kind.Prepared() {
        ok := EnterRun(a, t, p, b.pages, b.start, r.perm, PageStart(va), RunEnd(va, b.pages));
      }
      RegionAdded(s, a, r);
    }

    method AddToList(a: nat, r: Region)
      requires Linked() && HeapOk() && a < |tables|
      modifies this`regions, this`spaces
      ensures Linked() && HeapOk() && a < |old(spaces)|
      ensures spaces == old(spaces)[a := Space([r] + old(spaces)[a].regions, old(spaces)[a].table)]
    {
      assert regions[a] == spaces[a].regions && Translates(tables[a], spaces[a].table);
      regions := regions[a := [r] + regions[a]];
      spaces := spaces[a := Space([r] + spaces[a].regions, spaces[a].table)];
    }

    /** pmo_init, with paddr for device memory; None if the heap has no pages for it. */
    method NewPmo(kind: Kind, pages: nat, paddr: nat) returns (o: Option<nat>, ghost start: nat)
      requires Valid()
      modifies this`pmos, heap, heap.pool.order, heap.pool.taken, heap.pool.freeList, heap.pool.nrFree
      ensures Valid()
      ensures o.None? ==> View() == old(View()) && (kind == Data || kind == Nocache)
      ensures o.Some? ==> Enabled(old(View()), DemandPaging.NewPmo(kind, pages, start)) && o.value == |old(pmos)|
      ensures o.Some? ==> View() == Step(old(View()), DemandPaging.NewPmo(kind, pages, start))
    {
      ghost var s := View();
      var first := paddr;
      if kind == Data || kind == Nocache {
        var f := TakeFrames(pages);
        if f.None? {
          return None, 0;
        }
        first := f.value;
        assert View() == s;
        assert forall g: nat :: first <= g < first + pages ==> FreshFrame(s, g);
      }
      start := first;
      StepGood(s, DemandPaging.NewPmo(kind, pages, first));
      OwnedNew(heap.issued, pmos, kind, pages, first);
      SeparateNew(heap.issued, pmos, owner, kind, pages, first);
      o := Some(|pmos|);
      pmos := pmos + [Pmo(kind, pages, first, map[])];
    }

    /** kmalloc for the pages of an object. */
    method TakeFrames(pages: nat) returns (f: Option<nat>)
      requires Linked() && HeapOk()
      modifies heap, heap.pool.order, heap.pool.taken, heap.pool.freeList, heap.pool.nrFree
      ensures Linked() && HeapOk()
      ensures f.Some? ==> forall g: nat :: f.value <= g < f.value + pages ==>
                InBlock(heap.issued, g) && FreshFrame(View(), g) && g !in owner
    {
      ghost var before := heap.issued;
      var x := heap.Kmalloc(pages * PAGE_SIZE);
      if x.None? {
        return None;
      }
      OwnedKept(before, heap.issued, pmos, x.value);
      SeparateKept(before, heap.issued, pmos, owner, x.value);
      f := Some(x.value / PAGE_SIZE);
      forall g: nat | f.value <= g < f.value + pages
        ensures InBlock(heap.issued, g) && FreshFrame(View(), g) && g !in owner
      {
        PagesOf(heap.View(), heap.Meta(), x.value, pages, g);
        NewBlock(heap.View(), heap.Meta(), before, x.value, g);
        FreshOutside(before, View(), g);
      }
    }

    /** How many pages a fault at `addr` takes: one for the object if it does not have it yet, and those for the tables
        that the address lacks. */
    ghost function PagesFor(a: nat, t: P.PageTable, addr: nat): nat
      requires a < |spaces|
      reads this`pmos, this`spaces, t`at
    {
      (if NeedsPage(View(), a, addr) then 1 else 0) + |N.Lacks(t.at.Keys, PageStart(addr), 3)|
    }

    /** handle_trans_fault.  New pages come from the heap, and the page table translates the address when it is done. */
    method HandleTransFault(a: nat, t: P.PageTable, addr: nat) returns (ret: Outcome, ghost frame: nat)
      requires Valid() && a < |tables| && t == tables[a] && addr < VA_LIMIT
      modifies this`pmos, this`spaces, this`owner, t
      modifies heap`issued, heap.pool.order, heap.pool.taken, heap.pool.freeList, heap.pool.nrFree
      ensures Valid() && a < |old(spaces)|
      ensures ret == NoRegion <==> Find(regions[a], addr).None?
      ensures ret == Stopped <==> Find(regions[a], addr).Some?
                                  && (!Resolvable(old(View()), regions[a][Find(regions[a], addr).value], addr)
                                      || (NeedsPage(old(View()), a, addr) && old(Left()) == 0))
      ensures ret == Done || ret == NoTables ==> (ret == Done <==> old(Budget(t)) >= old(PagesFor(a, t, addr)))
      ensures ret == Done ==>
                Enabled(old(View()), Fault(a, addr, frame)) && View() == Step(old(View()), Fault(a, addr, frame))
      ensures ret == Done ==>
                Mapped(View(), regions[a][Find(regions[a], addr).value], t.Query(addr), addr)
      ensures ret == Done ==> KeptOutside(old(t.mem), t.mem, t.root, PageStart(addr), RunEnd(addr, 1))
      ensures ret == NoRegion || ret == Stopped ==> View() == old(View())
      ensures ret == NoTables ==> spaces == old(spaces)
    {
      frame := 0;
      assert regions[a] == spaces[a].regions;
      var vmr := FindRegion(regions[a], addr);
      if vmr.None? {
        return NoRegion, frame;
      }
      ret, frame := FaultIn(a, t, vmr.value, addr);
    }

    /** The part of handle_trans_fault for a region that was found. */
    method FaultIn(a: nat, t: P.PageTable, j: nat, addr: nat) returns (ret: Outcome, ghost frame: nat)
      requires Valid() && a < |tables| && t == tables[a] && addr < VA_LIMIT && Find(regions[a], addr) == Some(j)
      modifies this`pmos, this`spaces, this`owner, t
      modifies heap`issued, heap.pool.order, heap.pool.taken, heap.pool.freeList, heap.pool.nrFree
      ensures Valid() && ret != NoRegion && a < |old(spaces)|
      ensures ret == Stopped <==> !Resolvable(old(View()), regions[a][j], addr)
                                  || (NeedsPage(old(View()), a, addr) && old(Left()) == 0)
      ensures ret == Done || ret == NoTables ==> (ret == Done <==> old(Budget(t)) >= old(PagesFor(a, t, addr)))
      ensures ret == Done ==>
                Enabled(old(View()), Fault(a, addr, frame)) && View() == Step(old(View()), Fault(a, addr, frame))
      ensures ret == Done ==> Mapped(View(), regions[a][j], t.Query(addr), addr)
      ensures ret == Done ==> KeptOutside(old(t.mem), t.mem, t.root, PageStart(addr), RunEnd(addr, 1))
      ensures ret == Stopped ==> View() == old(View())
      ensures ret == NoTables ==> spaces == old(spaces)
    {
      frame := 0;
      ghost var s := View();
      var r := regions[a][j];
      RegionFound(s, a, j, addr);
      if pmos[r.pmo].kind != Lazy {
        return Stopped, frame;
      }
      var offset := addr - addr % PAGE_SIZE - r.start;
      if offset >= pmos[r.pmo].pages * PAGE_SIZE {
        return Stopped, frame;
      }
      ret, frame := ResolveIn(a, t, j, r, addr, offset / PAGE_SIZE);
    }

    /** The rest, for a page that the object of the region has. */
    method ResolveIn(a: nat, t: P.PageTable, ghost j: nat, r: Region, addr: nat, index: nat)
      returns (ret: Outcome, ghost frame: nat)
      requires Valid() && a < |tables| && t == tables[a] && addr < VA_LIMIT
      requires Find(spaces[a].regions, addr) == Some(j) && r == spaces[a].regions[j]
               && Resolvable(View(), r, addr) && index == IndexOf(r, addr)
      modifies this`pmos, this`spaces, this`owner, t
      modifies heap`issued, heap.pool.order, heap.pool.taken, heap.pool.freeList, heap.pool.nrFree
      ensures Valid() && ret != NoRegion && a < |old(spaces)|
      ensures ret == Stopped <==> NeedsPage(old(View()), a, addr) && old(Left()) == 0
      ensures ret == Done || ret == NoTables ==> (ret == Done <==> old(Budget(t)) >= old(PagesFor(a, t, addr)))
      ensures ret == Done ==>
                Enabled(old(View()), Fault(a, addr, frame)) && View() == Step(old(View()), Fault(a, addr, frame))
      ensures ret == Done ==> Mapped(View(), r, t.Query(addr), addr)
      ensures ret == Done ==> KeptOutside(old(t.mem), t.mem, t.root, PageStart(addr), RunEnd(addr, 1))
      ensures ret == Stopped ==> View() == old(View())
      ensures ret == NoTables ==> spaces == old(spaces)
    {
      ghost var s, m0 := View(), t.mem;
      assert Translates(t, spaces[a].table);
      RegionFound(s, a, j, addr);
      ret, frame := ResolveAt(a, t, r, addr, index);
      if ret == Done {
        FaultDone(s, a, j, addr, frame, r);
        assert Translates(t, spaces[a].table);
        PageKept(s, View(), m0, t.mem, t.root, a, addr);
      } else if ret == NoTables {
        RecordedGood(s, View(), r.pmo, index, frame);
      }
    }

    /** The case of a page of a lazy object. */
    method ResolveAt(a: nat, t: P.PageTable, r: Region, addr: nat, index: nat) returns (ret: Outcome, ghost frame: nat)
      requires Linked() && HeapOk() && a < |tables| && t == tables[a] && addr < VA_LIMIT
      requires Resolvable(View(), r, addr) && index == IndexOf(r, addr)
      modifies this`pmos, this`spaces, this`owner, t
      modifies heap`issued, heap.pool.order, heap.pool.taken, heap.pool.freeList, heap.pool.nrFree
      ensures Linked() && HeapOk() && ret != NoRegion && a < |old(spaces)|
      ensures ret == Stopped <==> index !in old(pmos)[r.pmo].radix && old(Left()) == 0
      ensures ret == Done || ret == NoTables ==>
                (ret == Done <==>
                  old(Budget(t)) >= (if index in old(pmos)[r.pmo].radix then 0 else 1)
                  + |N.Lacks(old(t.at).Keys, PageStart(addr), 3)|)
      ensures ret == Done ==> View() == Resolve(old(View()), a, r, addr, frame)
      ensures ret == Stopped ==> View() == old(View())
      ensures ret == NoTables ==> View() == if index in old(pmos)[r.pmo].radix then old(View())
                                            else Record(old(View()), r.pmo, index, frame)
      ensures ret != Stopped && index !in old(pmos)[r.pmo].radix ==> FreshFrame(old(View()), frame)
    {
      ghost var s := View();
      var f;
      f, frame := PageFor(r.pmo, index);
      if f.None? {
        return Stopped, frame;
      }
      Resolved(s, View(), a, r, addr, frame);
      var p := addr / PAGE_SIZE;
      PageFits(addr, p);
      var ok := EnterPage(a, t, p, PageStart(addr), f.value, r.perm);
      ret := if ok then Done else NoTables;
    }

    /** The page of a lazy object: the committed one, or a new one. */
    method PageFor(o: nat, index: nat) returns (f: Option<nat>, ghost frame: nat)
      requires Linked() && HeapOk() && o < |pmos| && pmos[o].kind == Lazy
      modifies this`pmos, heap`issued, heap.pool.order, heap.pool.taken, heap.pool.freeList, heap.pool.nrFree
      ensures Linked() && HeapOk()
      ensures f.None? <==> index !in old(pmos)[o].radix && old(Left()) == 0
      ensures f.None? ==> pmos == old(pmos)
      ensures f.Some? ==>
                View() == if index in old(pmos)[o].radix then old(View()) else Record(old(View()), o, index, frame)
      ensures f.Some? ==> Left() == old(Left()) - (if index in old(pmos)[o].radix then 0 else 1)
      ensures f.Some? && index !in old(pmos)[o].radix ==> FreshFrame(old(View()), frame)
      ensures f.Some? ==>
                o < |pmos| && index in pmos[o].radix && f.value == pmos[o].radix[index]
                && (f.value + 1) * PAGE_SIZE <= PA_LIMIT
    {
      frame := 0;
      if index !in pmos[o].radix {
        f := CommitPage(o, index);
        if f.None? {
          return;
        }
        frame := f.value;
      }
      f := Some(pmos[o].radix[index]);
      RecordedInPool(o, index);
    }

    lemma RecordedInPool(o: nat, index: nat)
      requires HeapOk() && o < |pmos| && pmos[o].kind == Lazy && index in pmos[o].radix
      ensures (pmos[o].radix[index] + 1) * PAGE_SIZE <= PA_LIMIT
    {
      assert pmos[o].Frame(index) == Some(pmos[o].radix[index]);
      InPool(heap.View(), heap.Meta(), pmos[o].radix[index]);
    }

    /** No address of any space is translated to a page of a page table, unless the page belongs to a device object,
        whose frames are those that it was made with. */
    lemma TablesHidden(a: nat, v: nat, b: nat, f: nat)
      requires Valid() && a < |tables| && b < |tables| && v < VA_LIMIT && tables[a].Query(v).Some?
      requires f == tables[a].Query(v).value.pa / PAGE_SIZE && f in tables[b].mem
      ensures exists j ::
                0 <= j < |regions[a]| && Agrees(View(), regions[a][j], v / PAGE_SIZE, Entry(f, regions[a][j].perm))
                          && pmos[regions[a][j].pmo].kind == Device
    {
      var p := v / PAGE_SIZE;
      assert regions[a] == spaces[a].regions && Translates(tables[a], spaces[a].table);
      assert Expected(spaces[a].table, v).Some?;
      FrameOf(spaces[a].table, v);
      InTable(b, f);
      OnlyDevice(View(), spaces[a], p, owner);
    }

    lemma InTable(b: nat, f: nat)
      requires Linked() && HeapOk() && b < |tables| && f in tables[b].mem
      ensures f in owner && owner[f] == b && FreshFrame(State(pmos, []), f)
    {
      assert Translates(tables[b], spaces[b].table) && OwnFrames(tables[b].root, tables[b].frames, owner, b);
    }

    /** No page belongs to the page tables of two spaces. */
    lemma TablesApart(a: nat, b: nat, f: nat)
      requires Valid() && a < |tables| && b < |tables| && f in tables[a].mem && f in tables[b].mem
      ensures a == b
    {
      InTable(a, f);
      InTable(b, f);
    }
  }

  lemma RegionFound(s: State, a: nat, j: nat, addr: nat)
    requires Coherent(s) && a < |s.spaces| && Find(s.spaces[a].regions, addr) == Some(j)
    ensures j < |s.spaces[a].regions|
    ensures var r := s.spaces[a].regions[j];
            && r.Has(addr) && r.start % PAGE_SIZE == 0 && r.pmo < |s.pmos|
            && 0 <= addr - addr % PAGE_SIZE - r.start
               && (addr - addr % PAGE_SIZE - r.start) / PAGE_SIZE == IndexOf(r, addr)
            && forall n: nat :: addr - addr % PAGE_SIZE - r.start < n * PAGE_SIZE <==> IndexOf(r, addr) < n
  {
    var r := s.spaces[a].regions[j];
    assert SpaceOk(s, s.spaces[a]) && RegionOk(s, r);
    PageIndex(r, addr);
  }

  lemma FrameOf(m: map<nat, Entry>, v: nat)
    requires Expected(m, v).Some?
    ensures v / PAGE_SIZE in m && Expected(m, v).value.pa / PAGE_SIZE == m[v / PAGE_SIZE].frame
  {
  }

  /** A page that is translated to a frame of no object that owns memory is one of a device object. */
  lemma OnlyDevice(s: State, x: Space, p: nat, owner: map<nat, nat>)
    requires SpaceOk(s, x) && p in x.table && FreshFrame(State(s.pmos, []), x.table[p].frame)
    ensures exists j :: 0 <= j < |x.regions| && Agrees(s, x.regions[j], p, Entry(x.table[p].frame, x.regions[j].perm))
                        && s.pmos[x.regions[j].pmo].kind == Device
  {
    assert BackedBy(s, x.regions, p, x.table[p]);
    var j :| 0 <= j < |x.regions| && Agrees(s, x.regions[j], p, x.table[p]);
    var r := x.regions[j];
    assert State(s.pmos, []).pmos[r.pmo].Frame(p - r.start / PAGE_SIZE) == Some(x.table[p].frame);
    assert x.table[p] == Entry(x.table[p].frame, r.perm);
  }

  /** A space into which a region was put, with its pages. */
  lemma RegionAdded(s: State, a: nat, r: Region)
    requires a < |s.spaces| && r.pmo < |s.pmos|
    ensures var b, more := s.pmos[r.pmo], s.spaces[a := Space([r] + s.spaces[a].regions, s.spaces[a].table)];
            AddRegion(s, a, r).spaces == if b.kind.Prepared()
              then WithRun(more, a, r.start / PAGE_SIZE, b.pages, b.start, r.perm) else more
  {
    assert s.spaces[a].table + map[] == s.spaces[a].table;
  }

  /** What resolving a fault comes to. */
  lemma FaultDone(s: State, a: nat, j: nat, addr: nat, frame: nat, r: Region)
    requires Coherent(s) && a < |s.spaces| && Find(s.spaces[a].regions, addr) == Some(j)
             && r == s.spaces[a].regions[j]
    requires Resolvable(s, r, addr) && (IndexOf(r, addr) !in s.pmos[r.pmo].radix ==> FreshFrame(s, frame))
    ensures var s' := Resolve(s, a, r, addr, frame);
            && Coherent(s') && Enabled(s, Fault(a, addr, frame)) && s' == Step(s, Fault(a, addr, frame))
            && Mapped(s', r, Expected(s'.spaces[a].table, addr), addr) && OnlyPage(s, s', a, addr / PAGE_SIZE)
  {
    RegionFound(s, a, j, addr);
    ResolveGood(s, a, j, addr, frame);
    FaultMaps(s, a, j, addr, frame);
    var s' := Resolve(s, a, r, addr, frame);
    MappedNow(s', r, addr, s'.spaces[a].table);
  }

  /** What adding a region does to the translation. */
  lemma FilledSo(s: State, m0: Mem, m1: Mem, root: nat, a: nat, r: Region, va: nat)
    requires a < |s.spaces| && r.pmo < |s.pmos| && r.start / PAGE_SIZE == va / PAGE_SIZE
    requires Translated(m0, root, s.spaces[a].table) && Translated(m1, root, AddRegion(s, a, r).spaces[a].table)
    requires s.pmos[r.pmo].kind.Prepared() ==> RunEnd(va, s.pmos[r.pmo].pages) <= VA_LIMIT
    ensures FilledTo(m0, m1, root, va, s.pmos[r.pmo], r.perm)
  {
    var b, m := s.pmos[r.pmo], s.spaces[a].table;
    if b.kind.Prepared() {
      RunMaps(m0, m1, root, m, va / PAGE_SIZE, b.pages, b.start, r.perm, PageStart(va), RunEnd(va, b.pages));
    } else {
      assert m + map[] == m;
    }
  }

  lemma RecordedGood(s: State, s': State, o: nat, index: nat, frame: nat)
    requires Coherent(s) && o < |s.pmos| && s.pmos[o].kind == Lazy
    requires index !in s.pmos[o].radix ==> FreshFrame(s, frame)
    requires s' == if index in s.pmos[o].radix then s else Record(s, o, index, frame)
    ensures Coherent(s')
  {
    if index !in s.pmos[o].radix {
      RecordGood(s, o, index, frame);
    }
  }

  /** Address `addr` is translated to the page that the object of region `r` records for it, with the permissions of
      the region. */
  predicate Mapped(s: State, r: Region, leaf: Option<Leaf>, addr: nat) {
    && r.start <= addr && r.pmo < |s.pmos| && leaf.Some?
    && var f := s.pmos[r.pmo].Frame(IndexOf(r, addr));
       f.Some? && leaf.value.pa == f.value * PAGE_SIZE + addr % PAGE_SIZE && Grants(leaf.value.attrs, r.perm)
  }

  lemma MappedNow(s: State, r: Region, addr: nat, m: map<nat, Entry>)
    requires r.start % PAGE_SIZE == 0 && r.Has(addr) && addr / PAGE_SIZE in m
             && Agrees(s, r, addr / PAGE_SIZE, m[addr / PAGE_SIZE])
    ensures Mapped(s, r, Expected(m, addr), addr)
  {
    AttrsGrant(r.perm);
    PageIndex(r, addr);
  }

  /** What decides whether mapping succeeds, and whether the spaces stay coherent. */
  lemma MapDecides(s: State, a: nat, va: nat, len: nat, perm: Flags, o: nat)
    requires Coherent(s) && a < |s.spaces| && o < |s.pmos|
    ensures var e, r := MapRange(a, va, len, perm, o), NewRegion(va, len, perm, s.pmos[o].kind, o);
            && r.start / PAGE_SIZE == va / PAGE_SIZE && Enabled(s, e) == NoCollision(s.spaces[a], r)
            && (Enabled(s, e) ==> Step(s, e) == AddRegion(s, a, r) && (Coherent(Step(s, e)) <==> Sane(s, e)))
    ensures var e, regions := MapRange(a, va, len, perm, o), s.spaces[a].regions;
            && (Enabled(s, e) <==> forall j :: 0 <= j < |regions| ==> !Refused(va, len, regions[j]))
            && (Enabled(s, e) ==> Placed(regions, Step(s, e).spaces[a].regions, va, len, perm, s.pmos[o].kind, o))
  {
    var r := NewRegion(va, len, perm, s.pmos[o].kind, o);
    NewRegionPlaced(s.spaces[a].regions, va, len, perm, s.pmos[o].kind, o);
    if NoCollision(s.spaces[a], r) {
      AddRegionExact(s, a, r);
    }
  }

  /** Resolving a fault is to find the page and then to map it. */
  lemma Resolved(s: State, s1: State, a: nat, r: Region, addr: nat, frame: nat)
    requires a < |s.spaces| && r.pmo < |s.pmos| && r.start <= addr
    requires s1 == if IndexOf(r, addr) in s.pmos[r.pmo].radix then s else Record(s, r.pmo, IndexOf(r, addr), frame)
    ensures var f := s1.pmos[r.pmo].radix[IndexOf(r, addr)];
            Resolve(s, a, r, addr, frame)
            == State(s1.pmos,
                     s1.spaces[a := Space(s1.spaces[a].regions,
                                          s1.spaces[a].table + Run(addr / PAGE_SIZE, 1, f, r.perm))])
  {
    var f := s1.pmos[r.pmo].radix[IndexOf(r, addr)];
    var p, m := addr / PAGE_SIZE, s1.spaces[a].table;
    assert Run(p, 1, f, r.perm) == map[p := Entry(f, r.perm)];
    assert m + map[p := Entry(f, r.perm)] == m[p := Entry(f, r.perm)];
  }

  /** A block of one page has that page, which is in the pool. */
  lemma PageOf(h: Slab.Heap, m: BuddyState.Meta, x: nat)
    requires Slab.Good(h, m) && x in h.issued && h.issued[x] == Slab.Pages(0)
    ensures BlockHas(x, h.issued[x], x / PAGE_SIZE) && m.In(x / PAGE_SIZE)
  {
    assert Slab.BlockOk(h.slabs, h.owner, m, x, h.issued[x]);
    assert Pow2(0) == 1;
    assert BlockHas(x, h.issued[x], x / PAGE_SIZE);
    InPool(h, m, x / PAGE_SIZE);
  }

  /** A block of whole pages has the pages that it was asked for, and they are in the pool. */
  lemma PagesOf(h: Slab.Heap, m: BuddyState.Meta, x: nat, pages: nat, g: nat)
    requires Slab.Good(h, m) && x in h.issued && h.issued[x].Pages? && Slab.SizeOf(h, x) >= pages * PAGE_SIZE
    requires x / PAGE_SIZE <= g < x / PAGE_SIZE + pages
    ensures BlockHas(x, h.issued[x], g) && InBlock(h.issued, g) && m.In(g)
  {
    assert Slab.BlockOk(h.slabs, h.owner, m, x, h.issued[x]);
    assert x == x / PAGE_SIZE * PAGE_SIZE;
    assert g * PAGE_SIZE < x + pages * PAGE_SIZE;
    assert BlockHas(x, h.issued[x], g);
    InPool(h, m, g);
  }

  lemma OwnedKept(before: map<nat, Slab.Block>, after: map<nat, Slab.Block>, pmos: seq<Pmo>, x: nat)
    requires Owned(before, pmos) && x !in before && x in after && after == before[x := after[x]]
    ensures Owned(after, pmos)
  {
    forall o: nat, i: nat | o < |pmos| && pmos[o].kind.Owns() && pmos[o].Frame(i).Some?
      ensures InBlock(after, pmos[o].Frame(i).value)
    {
      InBlockMore(before, x, after[x], pmos[o].Frame(i).value);
    }
  }

  lemma OwnedNew(issued: map<nat, Slab.Block>, pmos: seq<Pmo>, kind: Kind, pages: nat, start: nat)
    requires Owned(issued, pmos)
             && (kind == Data || kind == Nocache ==> forall g: nat :: start <= g < start + pages ==> InBlock(issued, g))
    ensures Owned(issued, pmos + [Pmo(kind, pages, start, map[])])
  {
    var all := pmos + [Pmo(kind, pages, start, map[])];
    forall o: nat, i: nat | o < |all| && all[o].kind.Owns() && all[o].Frame(i).Some?
      ensures InBlock(issued, all[o].Frame(i).value)
    {
      if o < |pmos| {
        assert all[o].Frame(i) == pmos[o].Frame(i);
      }
    }
  }

  lemma OneTaken(m: BuddyState.Meta, m': BuddyState.Meta, f: nat)
    requires K.TakesFrames(m, m', f, 0)
    ensures |K.FreeFrames(m')| == |K.FreeFrames(m)| - 1
  {
    assert Pow2(0) == 1;
    assert K.FreeFrames(m) == K.FreeFrames(m') + {f};
  }

  lemma FreshOutside(before: map<nat, Slab.Block>, s: State, f: nat)
    requires Owned(before, s.pmos) && f > 0 && !InBlock(before, f)
    ensures FreshFrame(s, f)
  {
  }

  lemma OwnedRecord(issued: map<nat, Slab.Block>, s: State, o: nat, index: nat, f: nat)
    requires Owned(issued, s.pmos) && o < |s.pmos| && s.pmos[o].kind == Lazy && InBlock(issued, f)
    ensures Owned(issued, Record(s, o, index, f).pmos)
  {
    var pmos := Record(s, o, index, f).pmos;
    forall p: nat, i: nat | p < |pmos| && pmos[p].kind.Owns() && pmos[p].Frame(i).Some?
      ensures InBlock(issued, pmos[p].Frame(i).value)
    {
      assert p == o && i == index ==> pmos[p].Frame(i) == Some(f);
      assert p != o || i != index ==> pmos[p].Frame(i) == s.pmos[p].Frame(i);
    }
  }
}
