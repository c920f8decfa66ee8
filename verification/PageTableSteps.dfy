/** Single steps on a page table: adding an empty table page, writing one leaf entry, and what each does to
    translation. */
module PageTableSteps {
  import opened Common
  import opened PageTableState

  const PA_LIMIT: nat := 0x1_0000_0000_0000

  /** vmr_prop_t, as far as set_pte_flags looks at it. */
  datatype Flags = Flags(write: bool, exec: bool, device: bool, nocache: bool)

  datatype PtpKind = NoMapping | NormalPtp | BlockPtp

  /** set_pte_flags. */
  function AttrsFor(flags: Flags): Attrs {
    Attrs(if flags.write then 1 else 3, !flags.exec, true, true, true,
          if flags.device then 0 else 3,
          if flags.device then 1 else if flags.nocache then 2 else 0)
  }

  // ------------------------------------------------------------------------- what a descriptor lets code do

  /** The memory attribute register that the boot code loads. */
  const MAIR: nat := 0x4404FF

  datatype MemoryType = DeviceMemory | Uncached | Cached | OtherMemory

  /** The memory type that an attribute index selects, section D5.5 of ARM DDI 0487. */
  function TypeOf(index: nat): MemoryType {
    var byte := if index == 0 then MAIR % 0x100
                else if index == 1 then MAIR / 0x100 % 0x100
                else MAIR / 0x1_0000 % 0x100;
    if index > 2 then OtherMemory else if byte / 16 == 0 then DeviceMemory else if byte == 0x44 then Uncached
    else if byte == 0xFF then Cached else OtherMemory
  }

  /** Bit 0 of the access permissions lets EL0 in, bit 1 makes the memory read-only, section D5.4 of ARM DDI 0487. */
  predicate UserReads(a: Attrs) {
    a.ap % 2 == 1
  }

  predicate UserWrites(a: Attrs) {
    a.ap % 2 == 1 && a.ap / 2 % 2 == 0
  }

  predicate KernelWrites(a: Attrs) {
    a.ap / 2 % 2 == 0
  }

  /** User code may read, write exactly if the flags say so, and execute exactly if they say so; the kernel may write
      where user code may, and never execute; the memory has the type that the flags ask for, and is shared between the
      CPUs unless it is device memory; the access is no fault, and the entry belongs to one address space. */
  predicate Grants(a: Attrs, flags: Flags) {
    && UserReads(a) && (UserWrites(a) <==> flags.write) && (KernelWrites(a) <==> flags.write)
    && (!a.uxn <==> flags.exec) && a.pxn
    && TypeOf(a.attrIndex) == (if flags.device then DeviceMemory else if flags.nocache then Uncached else Cached)
    && (a.sh == 3 <==> !flags.device) && a.af && a.ng
  }

  lemma AttrsGrant(flags: Flags)
    ensures Grants(AttrsFor(flags), flags)
  {
  }

  function RoundUp(len: nat): nat {
    (len + SIZE_4K - 1) / SIZE_4K * SIZE_4K
  }

  // ---------------------------------------------------------------- relations between table states

  /** The entry that the walk for `va` looks at in its table at level `l`, or an invalid one if there is no such
      table. */
  ghost function EntryAt(mem: Mem, at: Layout, va: nat, l: nat): Pte {
    var n := NodeOf(va, l);
    if n in at && at[n] in mem && Index(va, l) < |mem[at[n]]| then mem[at[n]][Index(va, l)] else ZERO_PTE
  }

  /** No block descriptor on the way to the tables at levels up to `depth`. */
  ghost predicate PathClear(mem: Mem, at: Layout, va: nat, depth: nat) {
    forall l: nat :: l < depth && EntryAt(mem, at, va, l).valid ==> EntryAt(mem, at, va, l).table
  }

  /** Only empty tables were added. */
  ghost predicate Extends(mem: Mem, at: Layout, mem': Mem, at': Layout, root: nat) {
    && (forall n :: n in at ==> n in at' && at'[n] == at[n])
    && (forall va: nat {:trigger Walk(mem', root, 0, va)} :: va < VA_LIMIT ==>
          Walk(mem', root, 0, va) == Walk(mem, root, 0, va))
    && (forall va: nat, d: nat {:trigger PathClear(mem', at', va, d)} ::
          va < VA_LIMIT && d <= 3 && PathClear(mem, at, va, d) ==> PathClear(mem', at', va, d))
    && (forall n :: n in at' && n !in at ==> at'[n] !in mem)
    && (forall f :: f in mem' && f !in mem ==> f in at'.Values)
    && mem.Keys <= mem'.Keys
  }

  /** Every table page is part of the tree. */
  ghost predicate Tight(mem: Mem, at: Layout) {
    forall f :: f in mem ==> f in at.Values
  }

  lemma ExtendsTrans(m0: Mem, a0: Layout, m1: Mem, a1: Layout, m2: Mem, a2: Layout, root: nat)
    requires Extends(m0, a0, m1, a1, root) && Extends(m1, a1, m2, a2, root)
    ensures Extends(m0, a0, m2, a2, root)
  {
  }

  lemma UnmappedPathClear(mem: Mem, root: nat, at: Layout, va: nat)
    requires Tree(mem, root, at) && va < VA_LIMIT && Walk(mem, root, 0, va) == None
    ensures PathClear(mem, at, va, 3)
  {
    forall l: nat | l < 3 && EntryAt(mem, at, va, l).valid
      ensures EntryAt(mem, at, va, l).table
    {
      WalkReaches(mem, root, at, va, l);
    }
  }

  lemma AttachClear(mem: Mem, root: nat, at: Layout, n: Node, i: nat, g: nat, va: nat, d: nat)
    requires Tree(mem, root, at) && n in at && n.level < 3 && i < ENTRIES
    requires !mem[at[n]][i].valid && g !in mem && PathClear(mem, at, va, d)
    ensures PathClear(Attach(mem, at[n], i, g), at[Child(n, i) := g], va, d)
  {
    var mem', at' := Attach(mem, at[n], i, g), at[Child(n, i) := g];
    forall l: nat | l < d
      ensures EntryAt(mem', at', va, l).valid ==> EntryAt(mem', at', va, l).table
    {
      assert EntryAt(mem, at, va, l).valid ==> EntryAt(mem, at, va, l).table;
      var p := NodeOf(va, l);
      assert p in at && at[p] == at[n] ==> p == n;
    }
  }

  lemma AttachExtends(mem: Mem, root: nat, at: Layout, n: Node, i: nat, g: nat)
    requires Tree(mem, root, at) && n in at && n.level < 3 && i < ENTRIES
    requires !mem[at[n]][i].valid && g !in mem
    ensures Extends(mem, at, Attach(mem, at[n], i, g), at[Child(n, i) := g], root)
  {
    var c := Child(n, i);
    var mem', at' := Attach(mem, at[n], i, g), at[c := g];
    AttachTree(mem, root, at, n, i, g);
    forall va: nat | va < VA_LIMIT
      ensures Walk(mem', root, 0, va) == Walk(mem, root, 0, va)
    {
      AttachWalk(mem, root, at, n, i, g, va);
    }
    forall va: nat, d: nat | va < VA_LIMIT && d <= 3 && PathClear(mem, at, va, d)
      ensures PathClear(mem', at', va, d)
    {
      AttachClear(mem, root, at, n, i, g, va, d);
    }
    assert at'[c] == g;
  }

  // ------------------------------------------------------------------------- writing one leaf entry

  lemma {:induction false} AncestorOf(va: nat, j: nat, l: nat)
    requires va < VA_LIMIT && l <= j <= 4
    ensures AncestorAt(NodeOf(va, j), l) == NodeOf(va, l)
    decreases j
  {
    if l < j {
      PrefixStep(va, j - 1);
      assert Parent(NodeOf(va, j)) == NodeOf(va, j - 1);
      AncestorOf(va, j - 1, l);
    }
  }

  predicate SameEntry(v: nat, w: nat, level: nat) {
    EntryNo(v, level) == EntryNo(w, level)
  }

  /** Writing a leaf or invalid descriptor into the entry for `cva` at `level`. */
  ghost predicate LeafWritten(mem: Mem, at: Layout, mem': Mem, at': Layout, root: nat, level: nat, cva: nat, e: Pte) {
    && (forall v: nat {:trigger Walk(mem', root, 0, v)} :: v < VA_LIMIT ==>
          Walk(mem', root, 0, v) == if SameEntry(v, cva, level) then LeafOf(e, level, v) else Walk(mem, root, 0, v))
    && (forall v: nat, d: nat {:trigger PathClear(mem', at', v, d)} ::
          v < VA_LIMIT && d <= 3 && !SameEntry(v, cva, level) && PathClear(mem, at, v, d) ==>
          PathClear(mem', at', v, d))
    && (forall v: nat, j: nat {:trigger NodeOf(v, j) in at'} ::
          v < VA_LIMIT && j <= 3 && (j <= level || !SameEntry(v, cva, level)) ==>
          (NodeOf(v, j) in at' <==> NodeOf(v, j) in at))
    && mem'.Keys == mem.Keys
  }

  lemma WriteLeafNodes(at: Layout, level: nat, cva: nat, v: nat, j: nat)
    requires level <= 3 && cva < VA_LIMIT && v < VA_LIMIT && j <= 3 && (j <= level || !SameEntry(v, cva, level))
    ensures NodeOf(v, j) in Prune(at, NodeOf(cva, level + 1)) <==> NodeOf(v, j) in at
  {
    if level < j {
      AncestorOf(v, j, level + 1);
    }
  }

  lemma WriteLeafClear(mem: Mem, root: nat, at: Layout, level: nat, cva: nat, e: Pte, v: nat, d: nat)
    requires Tree(mem, root, at) && level <= 3 && cva < VA_LIMIT && NodeOf(cva, level) in at
             && Index(cva, level) < ENTRIES
    requires v < VA_LIMIT && d <= 3 && !SameEntry(v, cva, level) && PathClear(mem, at, v, d)
    ensures PathClear(SetEntry(mem, at[NodeOf(cva, level)], Index(cva, level), e), Prune(at, NodeOf(cva, level + 1)), v,
                      d)
  {
    var n := NodeOf(cva, level);
    var mem', at' := SetEntry(mem, at[n], Index(cva, level), e), Prune(at, NodeOf(cva, level + 1));
    forall l: nat | l < d
      ensures EntryAt(mem', at', v, l).valid ==> EntryAt(mem', at', v, l).table
    {
      assert EntryAt(mem, at, v, l).valid ==> EntryAt(mem, at, v, l).table;
      var p := NodeOf(v, l);
      PrefixStep(v, level);
      PrefixStep(cva, level);
      assert p in at && at[p] == at[n] ==> p == n;
    }
  }

  lemma WriteLeafWalk(mem: Mem, root: nat, at: Layout, level: nat, cva: nat, e: Pte, v: nat)
    requires Tree(mem, root, at) && level <= 3 && cva < VA_LIMIT && NodeOf(cva, level) in at
             && Index(cva, level) < ENTRIES
    requires v < VA_LIMIT && (e.valid ==> level > 0 && (level == 3 || !e.table))
    ensures Walk(SetEntry(mem, at[NodeOf(cva, level)], Index(cva, level), e), root, 0, v)
            == if SameEntry(v, cva, level) then LeafOf(e, level, v) else Walk(mem, root, 0, v)
  {
    PrefixStep(cva, level);
    PrefixStep(v, level);
    SetLeafWalk(mem, root, at, NodeOf(cva, level), Index(cva, level), e, v);
  }

  lemma WriteLeaf(mem: Mem, root: nat, at: Layout, level: nat, cva: nat, e: Pte)
    requires Tree(mem, root, at) && level <= 3 && cva < VA_LIMIT && NodeOf(cva, level) in at
    requires e.valid ==> level > 0 && (level == 3 || !e.table)
    ensures Index(cva, level) < ENTRIES
    ensures Tree(SetEntry(mem, at[NodeOf(cva, level)], Index(cva, level), e), root, Prune(at, NodeOf(cva, level + 1)))
    ensures LeafWritten(mem, at, SetEntry(mem, at[NodeOf(cva, level)], Index(cva, level), e),
                        Prune(at, NodeOf(cva, level + 1)), root, level, cva, e)
  {
    PrefixStep(cva, level);
    SetLeafTree(mem, root, at, NodeOf(cva, level), Index(cva, level), e);
    LeafWrittenOk(mem, root, at, level, cva, e);
  }

  lemma LeafWrittenOk(mem: Mem, root: nat, at: Layout, level: nat, cva: nat, e: Pte)
    requires Tree(mem, root, at) && level <= 3 && cva < VA_LIMIT && NodeOf(cva, level) in at
             && Index(cva, level) < ENTRIES
    requires e.valid ==> level > 0 && (level == 3 || !e.table)
    ensures LeafWritten(mem, at, SetEntry(mem, at[NodeOf(cva, level)], Index(cva, level), e),
                        Prune(at, NodeOf(cva, level + 1)), root, level, cva, e)
  {
    var mem', at' := SetEntry(mem, at[NodeOf(cva, level)], Index(cva, level), e), Prune(at, NodeOf(cva, level + 1));
    forall v: nat | v < VA_LIMIT
      ensures Walk(mem', root, 0, v) == if SameEntry(v, cva, level) then LeafOf(e, level, v) else Walk(mem, root, 0, v)
    {
      WriteLeafWalk(mem, root, at, level, cva, e, v);
    }
    forall v: nat, j: nat | v < VA_LIMIT && j <= 3 && (j <= level || !SameEntry(v, cva, level))
      ensures NodeOf(v, j) in at' <==> NodeOf(v, j) in at
    {
      WriteLeafNodes(at, level, cva, v, j);
    }
    forall v: nat, d: nat | v < VA_LIMIT && d <= 3 && !SameEntry(v, cva, level) && PathClear(mem, at, v, d)
      ensures PathClear(mem', at', v, d)
    {
      WriteLeafClear(mem, root, at, level, cva, e, v, d);
    }
  }

  // ------------------------------------------------------------------ setting one entry of a range

  /** What `v` translates to when `cva` translates to `r` and the two share an entry. */
  function Shift(r: Option<Leaf>, cva: nat, v: nat): Option<Leaf> {
    if r.None? || v < cva then None else Some(Leaf(r.value.pa + (v - cva), r.value.attrs))
  }

  /** Address `v` now translates by the shifted `r`, through a table at `level`. */
  ghost predicate Set(m1: Mem, a1: Layout, root: nat, level: nat, cva: nat, r: Option<Leaf>, v: nat) {
    Walk(m1, root, 0, v) == Shift(r, cva, v) && NodeOf(v, level) in a1
  }

  /** Address `v` translates as before; its tables are still there, none was added below `level`, and
      no block came into its way. */
  ghost predicate Kept(m0: Mem, a0: Layout, m1: Mem, a1: Layout, root: nat, level: nat, v: nat) {
    && Walk(m1, root, 0, v) == Walk(m0, root, 0, v)
    && (forall j: nat :: j <= 3 && NodeOf(v, j) in a0 ==> NodeOf(v, j) in a1)
    && (forall j: nat :: level < j <= 3 && NodeOf(v, j) in a1 ==> NodeOf(v, j) in a0)
    && (forall d: nat :: d <= 3 && PathClear(m0, a0, v, d) ==> PathClear(m1, a1, v, d))
  }

  lemma KeptTrans(m0: Mem, a0: Layout, m1: Mem, a1: Layout, m2: Mem, a2: Layout, root: nat, l1: nat, l2: nat,
                  level: nat, v: nat)
    requires Kept(m0, a0, m1, a1, root, l1, v) && Kept(m1, a1, m2, a2, root, l2, v) && l1 <= level && l2 <= level
    ensures Kept(m0, a0, m2, a2, root, level, v)
  {
  }

  /** The entry for `cva` at `level` now gives `r` and leads to no table; a table page was lost exactly if it led to
      one before. */
  ghost predicate EntrySet(m0: Mem, a0: Layout, m1: Mem, a1: Layout, root: nat, level: nat, cva: nat, r: Option<Leaf>) {
    && (forall v: nat :: v < VA_LIMIT ==>
          if SameEntry(v, cva, level) then Set(m1, a1, root, level, cva, r, v)
            else Kept(m0, a0, m1, a1, root, level, v))
    && (Tight(m1, a1) <==> Tight(m0, a0) && NodeOf(cva, level + 1) !in a0)
    && NodeOf(cva, level + 1) !in a1
  }

  /** Adding tables down to the level of the entry and then writing the entry. */
  lemma EntrySetOk(m0: Mem, a0: Layout, m: Mem, a: Layout, root: nat, level: nat, cva: nat, e: Pte, r: Option<Leaf>)
    requires Tree(m0, root, a0) && Tree(m, root, a) && Extends(m0, a0, m, a, root)
    requires forall n :: n in a && n !in a0 ==> n.level <= level
    requires level <= 3 && cva < VA_LIMIT && NodeOf(cva, level) in a
    requires e.valid ==> level > 0 && (level == 3 || !e.table)
    requires forall v: nat :: v < VA_LIMIT && SameEntry(v, cva, level) ==> LeafOf(e, level, v) == Shift(r, cva, v)
    ensures Index(cva, level) < ENTRIES
    ensures var m1 := SetEntry(m, a[NodeOf(cva, level)], Index(cva, level), e);
            var a1 := Prune(a, NodeOf(cva, level + 1));
            Tree(m1, root, a1) && EntrySet(m0, a0, m1, a1, root, level, cva, r)
  {
    WriteLeaf(m, root, a, level, cva, e);
    var m1 := SetEntry(m, a[NodeOf(cva, level)], Index(cva, level), e);
    var a1 := Prune(a, NodeOf(cva, level + 1));
    assert NodeOf(cva, level) in a1;
    TightAfter(m0, a0, m, a, root, m1, level, cva);
    ExtendThenWrite(m0, a0, m, a, m1, a1, root, level, cva, e, r);
  }

  lemma ExtendThenWrite(m0: Mem, a0: Layout, m: Mem, a: Layout, m1: Mem, a1: Layout, root: nat, level: nat, cva: nat,
                        e: Pte, r: Option<Leaf>)
    requires Extends(m0, a0, m, a, root) && LeafWritten(m, a, m1, a1, root, level, cva, e)
    requires forall n :: n in a && n !in a0 ==> n.level <= level
    requires forall v: nat :: v < VA_LIMIT && SameEntry(v, cva, level) ==> LeafOf(e, level, v) == Shift(r, cva, v)
    requires level <= 3 && cva < VA_LIMIT && NodeOf(cva, level) in a1 && NodeOf(cva, level + 1) !in a1
    requires (Tight(m1, a1) <==> Tight(m0, a0) && NodeOf(cva, level + 1) !in a0)
    ensures EntrySet(m0, a0, m1, a1, root, level, cva, r)
  {
    forall v: nat | v < VA_LIMIT && SameEntry(v, cva, level)
      ensures Set(m1, a1, root, level, cva, r, v)
    {
      SameTable(v, cva, level);
    }
    forall v: nat | v < VA_LIMIT && !SameEntry(v, cva, level)
      ensures Kept(m0, a0, m1, a1, root, level, v)
    {
      KeptByWrite(m0, a0, m, a, m1, a1, root, level, cva, e, v);
    }
  }

  lemma KeptByWrite(m0: Mem, a0: Layout, m: Mem, a: Layout, m1: Mem, a1: Layout, root: nat, level: nat, cva: nat,
                    e: Pte, v: nat)
    requires Extends(m0, a0, m, a, root) && LeafWritten(m, a, m1, a1, root, level, cva, e)
    requires forall n :: n in a && n !in a0 ==> n.level <= level
    requires v < VA_LIMIT && !SameEntry(v, cva, level)
    ensures Kept(m0, a0, m1, a1, root, level, v)
  {
    assert Walk(m, root, 0, v) == Walk(m0, root, 0, v);
    forall d: nat | d <= 3 && PathClear(m0, a0, v, d)
      ensures PathClear(m1, a1, v, d)
    {
      assert PathClear(m, a, v, d);
    }
  }

  lemma SameTable(v: nat, w: nat, level: nat)
    requires level <= 3 && SameEntry(v, w, level) && v < VA_LIMIT && w < VA_LIMIT
    ensures NodeOf(v, level) == NodeOf(w, level)
  {
    PrefixStep(v, level);
    PrefixStep(w, level);
  }

  lemma TightAfter(m0: Mem, a0: Layout, m: Mem, a: Layout, root: nat, m1: Mem, level: nat, cva: nat)
    requires Tree(m0, root, a0) && Tree(m, root, a) && Extends(m0, a0, m, a, root) && m1.Keys == m.Keys
    requires forall n :: n in a && n !in a0 ==> n.level <= level
    ensures Tight(m1, Prune(a, NodeOf(cva, level + 1))) <==> Tight(m0, a0) && NodeOf(cva, level + 1) !in a0
  {
    var top := NodeOf(cva, level + 1);
    var a1 := Prune(a, top);
    if top in a0 {
      var f := a[top];
      assert f in m1;
      assert f !in a1.Values;
    } else {
      forall n | n in a
        ensures n in a1
      {
        TopThere(m, root, a, n, top);
      }
      assert a1 == a;
      if f :| f in m0 && f !in a0.Values {
        assert f in m1 && f !in a.Values;
      } else {
        forall f | f in m1
          ensures f in a.Values
        {
          if f in m0 {
            var n :| n in a0 && a0[n] == f;
            assert a[n] == f;
          }
        }
      }
    }
  }

  /** If a node is in the tree, so is each of its ancestors. */
  lemma {:induction false} TopThere(m: Mem, root: nat, a: Layout, n: Node, top: Node)
    requires Tree(m, root, a) && n in a
    ensures Under(n, top) ==> top in a
    decreases n.level
  {
    if n.level > top.level {
      TopThere(m, root, a, Parent(n), top);
    }
  }
}
