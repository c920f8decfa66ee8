/** The radix trees of the kernel (4-bit digits, 16 levels) and of the file system library (9-bit digits,
    8 levels): nodes updated in place, and the finite map that they are. */
module Radix {
  import opened RadixTree

  class Radix {
    const base: nat
    const levels: nat
    var root: nat
    var mem: Mem
    /** The address of the next node that the allocator returns. */
    var nextNode: nat
    ghost var at: Layout

    ghost predicate Valid()
      reads this
    {
      Tree(base, levels, mem, root, at) && nextNode > 0 && forall x :: x in mem ==> x < nextNode
    }

    /** The value stored under `key`, 0 if there is none. */
    ghost function Value(key: nat): nat
      requires base > 0
      reads this
    {
      Lookup(levels, mem, at, Digits(base, levels, key))
    }

    /** init_radix. */
    constructor (base: nat, levels: nat)
      requires base > 0 && levels > 0
      ensures Valid() && this.base == base && this.levels == levels && forall key: nat :: Value(key) == 0
    {
      this.base := base;
      this.levels := levels;
      root := 1;
      mem := map[1 := Zeros(base)];
      nextNode := 2;
      at := map[[] := 1];
      new;
      assert at[[]] == 1;
    }

    method NewNode() returns (x: nat)
      requires Valid()
      modifies this`nextNode
      ensures x != 0 && x !in mem && nextNode == x + 1 && Valid()
    {
      x := nextNode;
      nextNode := nextNode + 1;
    }

    /** The loop that computes the index of each level from the low end of the key. */
    method Indices(key: nat) returns (index: seq<nat>)
      requires base > 0
      ensures |index| == levels && forall i :: 0 <= i < levels ==> index[i] == Digits(base, levels, key)[levels - 1 - i]
    {
      var rest: nat := key;
      index := [];
      ghost var d := Digits(base, levels, key);
      for i := 0 to levels
        invariant |index| == i && forall j :: 0 <= j < i ==> index[j] == d[levels - 1 - j]
        invariant d[..levels - i] == Digits(base, levels - i, rest)
      {
        NextDigit(base, d[..levels - i], rest);
        assert d[..levels - i - 1] == d[..levels - i][..levels - i - 1];
        index := index + [rest % base];
        rest := rest / base;
      }
    }

    /** radix_get. */
    method Get(key: nat) returns (v: nat)
      requires Valid()
      ensures v == Value(key)
    {
      var found, node := FindLast(key);
      if !found {
        return 0;
      }
      NextDigit(base, Digits(base, levels, key), key);
      return mem[node][key % base];
    }

    /** The loops of radix_add that find the node of the last level for the digits `d`, adding what is missing. */
    method Descend(index: seq<nat>, ghost d: seq<nat>) returns (node: nat)
      requires Valid() && |d| == |index| == levels && IsPath(base, d)
               && forall i :: 0 <= i < levels ==> index[i] == d[levels - 1 - i]
      modifies this
      ensures Valid() && Parent(d) in at && node == at[Parent(d)]
      ensures forall e :: Lookup(levels, mem, at, e) == Lookup(levels, old(mem), old(at), e)
    {
      if root == 0 {
        var x := NewNode();
        FirstNode(base, levels, mem, at, x);
        root := x;
        mem := mem[x := Zeros(base)];
        at := map[[] := x];
      }
      node := root;
      var i := levels - 1;
      assert d[..0] == [];
      while i > 0
        invariant 0 <= i < levels && Valid() && d[..levels - 1 - i] in at && node == at[d[..levels - 1 - i]]
        invariant forall e :: Lookup(levels, mem, at, e) == Lookup(levels, old(mem), old(at), e)
      {
        ghost var p := d[..levels - 1 - i];
        assert d[..levels - i] == Child(p, index[i]);
        node := NextNode(node, index[i], p);
        i := i - 1;
      }
    }

    /** The child of a node, new if it was missing. */
    method NextNode(node: nat, k: nat, ghost p: seq<nat>) returns (next: nat)
      requires Valid() && p in at && node == at[p] && |p| + 1 < levels && k < base
      modifies this
      ensures Valid() && Child(p, k) in at && next == at[Child(p, k)]
      ensures forall e :: Lookup(levels, mem, at, e) == Lookup(levels, old(mem), old(at), e)
    {
      assert LinkOk(mem, at, p, k);
      if mem[node][k] == 0 {
        var x := NewNode();
        AttachTree(base, levels, mem, root, at, p, k, x);
        mem := Attach(base, mem, node, k, x);
        at := at[Child(p, k) := x];
      }
      assert LinkOk(mem, at, p, k);
      next := mem[node][k];
    }

    /** The store into the last node. */
    method Write(node: nat, k: nat, v: nat, ghost d: seq<nat>)
      requires Valid() && |d| == levels && Parent(d) in at && node == at[Parent(d)] && k == d[levels - 1] < base
      modifies this`mem
      ensures Valid() && mem.Keys == old(mem).Keys
      ensures forall e :: Lookup(levels, mem, at, e) == if e == d then v else Lookup(levels, old(mem), at, e)
    {
      WriteTree(base, levels, mem, root, at, d, v);
      mem := SetWord(mem, node, k, v);
    }

    /** radix_add of the library: replaces what was there.  With `v` 0 it is radix_del of the kernel. */
    method Add(key: nat, v: nat)
      requires Valid() && key < Pow(base, levels)
      modifies this
      ensures Valid() && forall k: nat :: k < Pow(base, levels) ==> Value(k) == if k == key then v else old(Value(k))
    {
      var index := Indices(key);
      ghost var d := Digits(base, levels, key);
      var node := Descend(index, d);
      Write(node, index[0], v, d);
      OneKey(base, levels, old(mem), old(at), mem, at, key, v);
    }

    /** radix_add of the kernel, which stops the system when a value would replace another. */
    method AddNew(key: nat, v: nat)
      requires Valid() && key < Pow(base, levels) && (Value(key) == 0 || v == 0)
      modifies this
      ensures Valid() && forall k: nat :: k < Pow(base, levels) ==> Value(k) == if k == key then v else old(Value(k))
    {
      Add(key, v);
    }

    /** radix_del of the library: it adds no nodes, and reports whether the last node was there.  `deleted` is
        what the deleter is called with. */
    method Delete(key: nat, deleteValue: bool) returns (r: int, deleted: seq<nat>)
      requires Valid() && key < Pow(base, levels)
      modifies this`mem
      ensures Valid() && forall k: nat :: k < Pow(base, levels) ==> Value(k) == if k == key then 0 else old(Value(k))
      ensures mem.Keys == old(mem).Keys && (r == 0 || r == -1) && (r == -1 ==> mem == old(mem) && Value(key) == 0)
      ensures deleted == if r == 0 && deleteValue then [old(Value(key))] else []
    {
      ghost var d := Digits(base, levels, key);
      deleted := [];
      var found, node := FindLast(key);
      if !found {
        return -1, [];
      }
      NextDigit(base, d, key);
      var k := key % base;
      if deleteValue {
        deleted := [mem[node][k]];
      }
      Write(node, k, 0, d);
      OneKey(base, levels, old(mem), old(at), mem, at, key, 0);
      r := 0;
    }

    /** The walk of radix_get and radix_del down to the last level. */
    method FindLast(key: nat) returns (found: bool, node: nat)
      requires Valid()
      ensures var d := Digits(base, levels, key);
              found == (Parent(d) in at) && (found ==> node == at[Parent(d)])
    {
      ghost var d := Digits(base, levels, key);
      if root == 0 {
        PathEnds(base, levels, mem, root, at, Parent(d), 0);
        return false, 0;
      }
      var index := Indices(key);
      node := root;
      var i := levels - 1;
      while i > 0
        invariant 0 <= i < levels && d[..levels - 1 - i] in at && node == at[d[..levels - 1 - i]]
      {
        ghost var p := d[..levels - 1 - i];
        assert d[..levels - i] == Child(p, index[i]);
        assert LinkOk(mem, at, p, index[i]);
        if mem[node][index[i]] == 0 {
          assert Parent(d)[..levels - i] == d[..levels - i];
          PathEnds(base, levels, mem, root, at, Parent(d), levels - i);
          return false, 0;
        }
        node := mem[node][index[i]];
        i := i - 1;
      }
      return true, node;
    }
  }

  lemma NextDigit(b: nat, d: seq<nat>, rest: nat)
    requires b > 0 && d != [] && d == Digits(b, |d|, rest)
    ensures d[|d| - 1] == rest % b && d[..|d| - 1] == Digits(b, |d| - 1, rest / b)
  {
  }

  /** A change under one sequence of digits is a change under one key. */
  lemma OneKey(b: nat, n: nat, m0: Mem, a0: Layout, m1: Mem, a1: Layout, key: nat, v: nat)
    requires b > 0 && key < Pow(b, n)
    requires forall e :: Lookup(n, m1, a1, e) == if e == Digits(b, n, key) then v else Lookup(n, m0, a0, e)
    ensures forall k: nat :: k < Pow(b, n) ==>
              Lookup(n, m1, a1, Digits(b, n, k)) == if k == key then v else Lookup(n, m0, a0, Digits(b, n, k))
  {
    forall k: nat | k < Pow(b, n)
      ensures Lookup(n, m1, a1, Digits(b, n, k)) == if k == key then v else Lookup(n, m0, a0, Digits(b, n, k))
    {
      DigitsKey(b, n, k);
      DigitsKey(b, n, key);
    }
  }

  /** A first, empty node as the root. */
  lemma FirstNode(b: nat, n: nat, mem: Mem, at: Layout, x: nat)
    requires Tree(b, n, mem, 0, at) && x != 0
    ensures at == map[] && mem == map[]
    ensures Tree(b, n, mem[x := Zeros(b)], x, map[[] := x])
    ensures forall d :: Lookup(n, mem[x := Zeros(b)], map[[] := x], d) == Lookup(n, mem, at, d)
  {
    forall p
      ensures p !in at
    {
      PathEnds(b, n, mem, 0, at, p, 0);
    }
    var mem', at' := mem[x := Zeros(b)], map[[] := x];
    assert at'[[]] == x;
    assert forall y :: y in mem ==> y in at.Values;
    forall q, j: nat | q in at' && |q| + 1 < n && j < b
      ensures LinkOk(mem', at', q, j)
    {
      assert Child([], j) != [];
    }
  }

  /** Below a missing node there is nothing. */
  lemma {:induction false} PathEnds(b: nat, n: nat, mem: Mem, root: nat, at: Layout, p: seq<nat>, k: nat)
    requires Tree(b, n, mem, root, at) && k <= |p| && p[..k] !in at
    ensures p !in at
    decreases |p|
  {
    if k == |p| {
      assert p[..k] == p;
    } else if p in at {
      assert Parent(p)[..k] == p[..k];
      PathEnds(b, n, mem, root, at, Parent(p), k);
    }
  }
}
