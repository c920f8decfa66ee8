/** Four-level AArch64 translation tables held in memory, and the translation function they define.

    Descriptors follow the VMSAv8-64 layout: bit 0 is the valid bit, bit 1 the table bit, and bits
    12 to 47 hold one address field, read as a table address, a 4K frame, or (from bit 21 or bit 30
    up) as a 2M or 1G block number. */
module PageTableState {
  import opened Common

  const ENTRIES: nat := 512
  const VA_LIMIT: nat := 0x1_0000_0000_0000
  const SIZE_4K: nat := 0x1000
  const SIZE_2M: nat := 0x20_0000
  const SIZE_1G: nat := 0x4000_0000
  const SIZE_512G: nat := 0x80_0000_0000
  const FRAME_LIMIT: nat := 0x10_0000_0000

  /** The attribute bits that set_pte_flags fills in. */
  datatype Attrs = Attrs(ap: nat, uxn: bool, pxn: bool, af: bool, ng: bool, sh: nat, attrIndex: nat)

  datatype Pte = Pte(valid: bool, table: bool, addr: nat, attrs: Attrs)

  const ZERO_PTE: Pte := Pte(false, false, 0, Attrs(0, false, false, false, false, 0, 0))

  type Mem = map<nat, seq<Pte>>

  /** A node of the tree: its level and the address bits that lead to it. */
  datatype Node = Node(level: nat, prefix: nat)

  /** Which frame holds which node. */
  type Layout = map<Node, nat>

  datatype Leaf = Leaf(pa: nat, attrs: Attrs)

  // ---------------------------------------------------------------------------- address splitting

  /** The number of bytes one entry of a table at `level` covers. */
  function EntrySize(level: nat): (r: nat)
    ensures r > 0
  {
    if level == 0 then SIZE_512G else if level == 1 then SIZE_1G else if level == 2 then SIZE_2M else SIZE_4K
  }

  /** va / EntrySize(level). */
  function EntryNo(va: nat, level: nat): nat {
    if level == 0 then va / SIZE_512G else if level == 1 then va / SIZE_1G
    else if level == 2 then va / SIZE_2M else va / SIZE_4K
  }

  predicate Aligned(va: nat, level: nat) {
    if level == 0 then va % SIZE_512G == 0 else if level == 1 then va % SIZE_1G == 0
    else if level == 2 then va % SIZE_2M == 0 else va % SIZE_4K == 0
  }

  /** The address bits consumed on the way to the table at `level`. */
  function Prefix(va: nat, level: nat): nat {
    if level == 0 then 0 else EntryNo(va, level - 1)
  }

  function Index(va: nat, level: nat): nat {
    EntryNo(va, level) % ENTRIES
  }

  function NodeOf(va: nat, level: nat): Node {
    Node(level, Prefix(va, level))
  }

  function Child(n: Node, i: nat): Node {
    Node(n.level + 1, n.prefix * ENTRIES + i)
  }

  function Parent(n: Node): Node
    requires n.level > 0
  {
    Node(n.level - 1, n.prefix / ENTRIES)
  }

  lemma PrefixStep(va: nat, level: nat)
    requires va < VA_LIMIT && level <= 3
    ensures Prefix(va, level + 1) == Prefix(va, level) * ENTRIES + Index(va, level)
    ensures Index(va, level) < ENTRIES
    ensures NodeOf(va, level + 1) == Child(NodeOf(va, level), Index(va, level))
  {
    if level == 0 {
      assert va / SIZE_512G < ENTRIES;
    } else if level == 1 {
      assert (va / SIZE_1G) / ENTRIES == va / SIZE_512G;
    } else if level == 2 {
      assert (va / SIZE_2M) / ENTRIES == va / SIZE_1G;
    } else {
      assert (va / SIZE_4K) / ENTRIES == va / SIZE_2M;
    }
  }

  /** The ancestor of `n` at `level`. */
  function AncestorAt(n: Node, level: nat): (r: Node)
    requires level <= n.level
    ensures r.level == level
    decreases n.level
  {
    if n.level == level then n else AncestorAt(Parent(n), level)
  }

  predicate Under(n: Node, top: Node) {
    n.level >= top.level && AncestorAt(n, top.level) == top
  }

  // --------------------------------------------------------------------------- the walk of query_in_pgtbl

  /** The address a valid leaf descriptor at `level` gives to `va`. */
  function LeafOf(e: Pte, level: nat, va: nat): Option<Leaf> {
    if !e.valid then None
    else if level <= 1 then Some(Leaf((e.addr / (512 * 512)) * SIZE_1G + va % SIZE_1G, e.attrs))
    else if level == 2 then Some(Leaf((e.addr / 512) * SIZE_2M + va % SIZE_2M, e.attrs))
    else Some(Leaf(e.addr * SIZE_4K + va % SIZE_4K, e.attrs))
  }

  function Walk(mem: Mem, f: nat, level: nat, va: nat): Option<Leaf>
    requires level <= 3
    decreases 3 - level
  {
    if f !in mem || |mem[f]| != ENTRIES then None
    else
      var e := mem[f][Index(va, level)];
      if e.valid && e.table && level < 3 then Walk(mem, e.addr, level + 1, va)
      else LeafOf(e, level, va)
  }

  // ------------------------------------------------------------------------------------- the tree

  /** The frames named by `at` form a tree of tables below `root`: every valid table descriptor leads
      to its own child, and no frame holds two nodes. */
  ghost predicate Tree(mem: Mem, root: nat, at: Layout) {
    && Node(0, 0) in at && at[Node(0, 0)] == root
    && (forall n :: n in at ==> n.level <= 3 && at[n] in mem && |mem[at[n]]| == ENTRIES)
    && (forall n :: n in at && n.level == 0 ==> n.prefix == 0)
    && (forall m, n {:trigger at[m], at[n]} :: m in at && n in at && at[m] == at[n] ==> m == n)
    && (forall n {:trigger Parent(n)} :: n in at && n.level > 0 ==> Parent(n) in at)
    && (forall n, i :: n in at && n.level < 3 && 0 <= i < ENTRIES ==> LinkOk(mem, at, n, i))
  }

  ghost predicate LinkOk(mem: Mem, at: Layout, n: Node, i: nat)
    requires n in at && at[n] in mem && |mem[at[n]]| == ENTRIES && i < ENTRIES
  {
    var e := mem[at[n]][i];
    && (Child(n, i) in at <==> e.valid && e.table)
    && (Child(n, i) in at ==> at[Child(n, i)] == e.addr)
    && (n.level == 0 && e.valid ==> e.table)
  }

  function SetEntry(mem: Mem, f: nat, i: nat, e: Pte): Mem
    requires f in mem && i < |mem[f]|
  {
    mem[f := mem[f][i := e]]
  }

  /** A walk that reaches a node goes on from there. */
  lemma {:induction false} WalkReaches(mem: Mem, root: nat, at: Layout, va: nat, level: nat)
    requires Tree(mem, root, at) && va < VA_LIMIT && level <= 3 && NodeOf(va, level) in at
    ensures Walk(mem, root, 0, va) == Walk(mem, at[NodeOf(va, level)], level, va)
    decreases level
  {
    if level > 0 {
      PrefixStep(va, level - 1);
      var p := NodeOf(va, level - 1);
      assert Parent(NodeOf(va, level)) == p;
      WalkReaches(mem, root, at, va, level - 1);
      assert LinkOk(mem, at, p, Index(va, level - 1));
    }
  }

  /** A walk that does not use the changed entry is unchanged. */
  lemma {:induction false} WalkAvoids(mem: Mem, root: nat, at: Layout, n: Node, i: nat, e: Pte, va: nat, level: nat)
    requires Tree(mem, root, at) && n in at && i < ENTRIES
    requires va < VA_LIMIT && level <= 3 && NodeOf(va, level) in at
    requires !(NodeOf(va, n.level) == n && Index(va, n.level) == i)
    ensures var mem' := SetEntry(mem, at[n], i, e);
            Walk(mem', at[NodeOf(va, level)], level, va) == Walk(mem, at[NodeOf(va, level)], level, va)
    decreases 3 - level
  {
    var p, j := NodeOf(va, level), Index(va, level);
    var d := mem[at[p]][j];
    assert at[p] == at[n] ==> p == n;
    if level < 3 && d.valid && d.table {
      PrefixStep(va, level);
      assert LinkOk(mem, at, p, j);
      WalkAvoids(mem, root, at, n, i, e, va, level + 1);
    }
  }

  /** The nodes that stay when the entry leading to `top` is overwritten. */
  ghost function Prune(at: Layout, top: Node): Layout {
    map n | n in at && !Under(n, top) :: at[n]
  }

  lemma UnderChild(n: Node, i: nat, top: Node)
    requires i < ENTRIES && Under(Child(n, i), top)
    ensures Child(n, i) == top || Under(n, top)
  {
    assert Parent(Child(n, i)) == n;
  }

  lemma {:induction false} AncestorUp(n: Node, level: nat)
    requires level < n.level
    ensures AncestorAt(n, level) == Parent(AncestorAt(n, level + 1))
    decreases n.level
  {
    if n.level > level + 1 {
      AncestorUp(Parent(n), level);
    }
  }

  /** A node under a child of `n` is under `n`, and not above it. */
  lemma AboveNotUnder(n: Node, i: nat, m: Node)
    requires i < ENTRIES && m.level <= n.level
    ensures !Under(m, Child(n, i))
  {
  }

  /** Overwriting an entry by a leaf or by an invalid descriptor keeps the tree, less what hung below it. */
  lemma SetLeafTree(mem: Mem, root: nat, at: Layout, n: Node, i: nat, e: Pte)
    requires Tree(mem, root, at) && n in at && i < ENTRIES
    requires e.valid ==> n.level > 0 && (n.level == 3 || !e.table)
    ensures Tree(SetEntry(mem, at[n], i, e), root, Prune(at, Child(n, i)))
  {
    var mem', top := SetEntry(mem, at[n], i, e), Child(n, i);
    var at' := Prune(at, top);
    AboveNotUnder(n, i, Node(0, 0));
    forall m | m in at' && m.level > 0
      ensures Parent(m) in at'
    {
      assert Under(Parent(m), top) ==> Under(m, top);
    }
    forall m, j | m in at' && m.level < 3 && 0 <= j < ENTRIES
      ensures LinkOk(mem', at', m, j)
    {
      SetLeafLink(mem, root, at, n, i, e, m, j);
    }
  }

  lemma SetLeafLink(mem: Mem, root: nat, at: Layout, n: Node, i: nat, e: Pte, m: Node, j: nat)
    requires Tree(mem, root, at) && n in at && i < ENTRIES && m in at && m.level < 3 && j < ENTRIES
    requires e.valid ==> n.level > 0 && (n.level == 3 || !e.table)
    requires !Under(m, Child(n, i))
    ensures LinkOk(SetEntry(mem, at[n], i, e), Prune(at, Child(n, i)), m, j)
  {
    assert LinkOk(mem, at, m, j);
    assert at[m] == at[n] ==> m == n;
    if Child(m, j) in at && Under(Child(m, j), Child(n, i)) {
      UnderChild(m, j, Child(n, i));
      assert Parent(Child(m, j)) == m && Parent(Child(n, i)) == n;
    }
  }

  /** Overwriting an entry by a leaf or by an invalid descriptor changes the translation of exactly
      the addresses that the entry covers. */
  lemma SetLeafWalk(mem: Mem, root: nat, at: Layout, n: Node, i: nat, e: Pte, va: nat)
    requires Tree(mem, root, at) && n in at && i < ENTRIES && va < VA_LIMIT
    requires e.valid ==> n.level > 0 && (n.level == 3 || !e.table)
    ensures Walk(SetEntry(mem, at[n], i, e), root, 0, va)
            == if NodeOf(va, n.level + 1) == Child(n, i) then LeafOf(e, n.level, va) else Walk(mem, root, 0, va)
  {
    var mem' := SetEntry(mem, at[n], i, e);
    PrefixStep(va, n.level);
    if NodeOf(va, n.level + 1) == Child(n, i) {
      assert NodeOf(va, n.level) == n && Index(va, n.level) == i;
      SetLeafTree(mem, root, at, n, i, e);
      AboveNotUnder(n, i, n);
      WalkReaches(mem', root, Prune(at, Child(n, i)), va, n.level);
    } else {
      assert NodeOf(va, 0) == Node(0, 0);
      WalkAvoids(mem, root, at, n, i, e, va, 0);
    }
  }

  // ------------------------------------------------------------------------- adding a table page

  function NewTable(): (r: seq<Pte>)
    ensures |r| == ENTRIES && forall i :: 0 <= i < ENTRIES ==> r[i] == ZERO_PTE
  {
    seq(ENTRIES, _ => ZERO_PTE)
  }

  function Attach(mem: Mem, f: nat, i: nat, g: nat): Mem
    requires f in mem && i < |mem[f]|
  {
    SetEntry(mem, f, i, mem[f][i].(valid := true, table := true, addr := g))[g := NewTable()]
  }

  /** Hanging a fresh zeroed page below an invalid entry keeps the tree and every translation. */
  lemma AttachTree(mem: Mem, root: nat, at: Layout, n: Node, i: nat, g: nat)
    requires Tree(mem, root, at) && n in at && n.level < 3 && i < ENTRIES
    requires !mem[at[n]][i].valid && g !in mem
    ensures Tree(Attach(mem, at[n], i, g), root, at[Child(n, i) := g])
    ensures Child(n, i) !in at
  {
    var c := Child(n, i);
    assert LinkOk(mem, at, n, i);
    var mem', at' := Attach(mem, at[n], i, g), at[c := g];
    assert Parent(c) == n;
    forall m, j | m in at' && m.level < 3 && 0 <= j < ENTRIES
      ensures LinkOk(mem', at', m, j)
    {
      if m == c {
        assert mem'[at'[m]][j] == ZERO_PTE;
        assert Parent(Child(c, j)) == c;
      } else {
        assert LinkOk(mem, at, m, j);
        assert Parent(Child(m, j)) == m;
        assert at[m] == at[n] ==> m == n;
      }
    }
  }

  lemma AttachWalk(mem: Mem, root: nat, at: Layout, n: Node, i: nat, g: nat, va: nat)
    requires Tree(mem, root, at) && n in at && n.level < 3 && i < ENTRIES && va < VA_LIMIT
    requires !mem[at[n]][i].valid && g !in mem
    ensures Walk(Attach(mem, at[n], i, g), root, 0, va) == Walk(mem, root, 0, va)
  {
    var c := Child(n, i);
    var mem', at' := Attach(mem, at[n], i, g), at[c := g];
    AttachTree(mem, root, at, n, i, g);
    PrefixStep(va, n.level);
    if NodeOf(va, n.level + 1) == c {
      assert NodeOf(va, n.level) == n && Index(va, n.level) == i;
      WalkReaches(mem', root, at', va, n.level + 1);
      WalkReaches(mem, root, at, va, n.level);
      assert Index(va, n.level + 1) < ENTRIES;
    } else {
      assert NodeOf(va, 0) == Node(0, 0);
      AttachAvoids(mem, root, at, n, i, g, va, 0);
    }
  }

  lemma {:induction false} AttachAvoids(mem: Mem, root: nat, at: Layout, n: Node, i: nat, g: nat, va: nat, level: nat)
    requires Tree(mem, root, at) && n in at && n.level < 3 && i < ENTRIES && g !in mem
    requires va < VA_LIMIT && level <= 3 && NodeOf(va, level) in at
    requires !(NodeOf(va, n.level) == n && Index(va, n.level) == i)
    ensures Walk(Attach(mem, at[n], i, g), at[NodeOf(va, level)], level, va)
            == Walk(mem, at[NodeOf(va, level)], level, va)
    decreases 3 - level
  {
    var p, j := NodeOf(va, level), Index(va, level);
    var d := mem[at[p]][j];
    assert at[p] == at[n] ==> p == n;
    if level < 3 && d.valid && d.table {
      PrefixStep(va, level);
      assert LinkOk(mem, at, p, j);
      AttachAvoids(mem, root, at, n, i, g, va, level + 1);
    }
  }
}
