/** Radix trees of any digit width: the digits of a key, and the nodes of a tree in memory.

    A node is an array of `base` words.  In the last level the words are values, in the others they point
    at nodes; 0 is NULL in both.  `at` says which node is reached by which leading digits. */
module RadixTree {

  // ------------------------------------------------------------------------------------------- digits

  function Pow(b: nat, n: nat): nat {
    if n == 0 then 1 else b * Pow(b, n - 1)
  }

  /** The `n` low digits of a key, most significant first. */
  function Digits(b: nat, n: nat, key: nat): (d: seq<nat>)
    requires b > 0
    ensures |d| == n && forall i :: 0 <= i < n ==> d[i] < b
    decreases n
  {
    if n == 0 then [] else Digits(b, n - 1, key / b) + [key % b]
  }

  function KeyOf(b: nat, d: seq<nat>): nat {
    if d == [] then 0 else KeyOf(b, d[..|d| - 1]) * b + d[|d| - 1]
  }

  lemma DivBelow(key: nat, b: nat, p: nat)
    requires b > 0 && key < b * p
    ensures key / b < p && key / b * b + key % b == key
  {
  }

  /** A key that fits is determined by its digits. */
  lemma {:induction false} DigitsKey(b: nat, n: nat, key: nat)
    requires b > 0 && key < Pow(b, n)
    ensures KeyOf(b, Digits(b, n, key)) == key
    decreases n
  {
    if n > 0 {
      DivBelow(key, b, Pow(b, n - 1));
      DigitsKey(b, n - 1, key / b);
      assert Digits(b, n, key)[..n - 1] == Digits(b, n - 1, key / b);
    }
  }

  /** The order of digit sequences: the first difference decides. */
  predicate Less(d: seq<nat>, e: seq<nat>)
    requires |d| == |e|
  {
    |d| > 0 && (Less(d[..|d| - 1], e[..|d| - 1]) || (d[..|d| - 1] == e[..|d| - 1] && d[|d| - 1] < e[|d| - 1]))
  }

  lemma MulGap(x: nat, y: nat, b: nat, i: nat, j: nat)
    requires x < y && i < b
    ensures x * b + i < y * b + j
  {
    assert (x + 1) * b <= y * b;
  }

  /** It is the order of the keys. */
  lemma {:induction false} LessIsSmaller(b: nat, d: seq<nat>, e: seq<nat>)
    requires |d| == |e| && Less(d, e) && forall i :: 0 <= i < |d| ==> d[i] < b && e[i] < b
    ensures KeyOf(b, d) < KeyOf(b, e)
  {
    var n := |d| - 1;
    if Less(d[..n], e[..n]) {
      LessIsSmaller(b, d[..n], e[..n]);
      MulGap(KeyOf(b, d[..n]), KeyOf(b, e[..n]), b, d[n], e[n]);
    }
  }

  /** Both trees have room for all 64-bit keys. */
  lemma RoomFor64Bits()
    ensures Pow(16, 16) == 0x1_0000_0000_0000_0000
    ensures Pow(512, 8) >= 0x1_0000_0000_0000_0000
  {
    assert Pow(16, 4) == 0x1_0000;
    assert Pow(16, 8) == 16 * (16 * (16 * (16 * Pow(16, 4))));
    assert Pow(16, 12) == 16 * (16 * (16 * (16 * Pow(16, 8))));
    assert Pow(16, 16) == 16 * (16 * (16 * (16 * Pow(16, 12))));
    assert Pow(512, 4) == 0x10_0000_0000;
    assert Pow(512, 8) == 512 * (512 * (512 * (512 * Pow(512, 4))));
  }

  // --------------------------------------------------------------------------------------------- trees

  type Mem = map<nat, seq<nat>>
  type Layout = map<seq<nat>, nat>

  predicate IsPath(b: nat, p: seq<nat>) {
    forall i :: 0 <= i < |p| ==> p[i] < b
  }

  function Parent(p: seq<nat>): seq<nat>
    requires p != []
  {
    p[..|p| - 1]
  }

  function Child(p: seq<nat>, i: nat): seq<nat> {
    p + [i]
  }

  predicate LinkOk(mem: Mem, at: Layout, p: seq<nat>, i: nat)
    requires p in at && at[p] in mem && i < |mem[at[p]]|
  {
    (Child(p, i) in at <==> mem[at[p]][i] != 0) && (Child(p, i) in at ==> at[Child(p, i)] == mem[at[p]][i])
  }

  ghost predicate Tree(b: nat, n: nat, mem: Mem, root: nat, at: Layout) {
    && b > 0 && n > 0
    && (root == 0 <==> [] !in at) && ([] in at ==> at[[]] == root)
    && (forall p :: p in at ==> |p| < n && IsPath(b, p) && at[p] != 0 && at[p] in mem && |mem[at[p]]| == b)
    && (forall p, q {:trigger at[p], at[q]} :: p in at && q in at && at[p] == at[q] ==> p == q)
    && (forall p {:trigger Parent(p)} :: p in at && p != [] ==> Parent(p) in at)
    && (forall p, i: nat :: p in at && |p| + 1 < n && i < b ==> LinkOk(mem, at, p, i))
    && (forall x {:trigger x in at.Values} :: x in mem ==> x in at.Values)
  }

  /** The value under the digits `d`, 0 if there is none. */
  function Lookup(n: nat, mem: Mem, at: Layout, d: seq<nat>): nat {
    if 0 < n == |d| && Parent(d) in at && at[Parent(d)] in mem
    && d[n - 1] < |mem[at[Parent(d)]]| then mem[at[Parent(d)]][d[n - 1]] else 0
  }

  function Zeros(b: nat): (z: seq<nat>)
    ensures |z| == b && forall i :: 0 <= i < b ==> z[i] == 0
  {
    seq(b, _ => 0)
  }

  function SetWord(mem: Mem, x: nat, i: nat, v: nat): Mem
    requires x in mem && i < |mem[x]|
  {
    mem[x := mem[x][..i] + [v] + mem[x][i + 1..]]
  }

  /** A new node `y`, linked from word `i` of node `x`. */
  function Attach(b: nat, mem: Mem, x: nat, i: nat, y: nat): Mem
    requires x in mem && i < |mem[x]|
  {
    SetWord(mem, x, i, y)[y := Zeros(b)]
  }

  /** Hanging a fresh, empty node below an empty link changes no value. */
  lemma AttachTree(b: nat, n: nat, mem: Mem, root: nat, at: Layout, p: seq<nat>, i: nat, x: nat)
    requires Tree(b, n, mem, root, at) && p in at && |p| + 1 < n && i < b && mem[at[p]][i] == 0 && x != 0 && x !in mem
    ensures var mem', at' := Attach(b, mem, at[p], i, x), at[Child(p, i) := x];
            Tree(b, n, mem', root, at') && forall d :: Lookup(n, mem', at', d) == Lookup(n, mem, at, d)
  {
    var c := Child(p, i);
    var mem', at' := Attach(b, mem, at[p], i, x), at[c := x];
    assert LinkOk(mem, at, p, i) && Parent(c) == p;
    forall q, j: nat | q in at' && |q| + 1 < n && j < b
      ensures LinkOk(mem', at', q, j)
    {
      AttachLink(b, n, mem, root, at, p, i, x, q, j);
    }
    forall y | y in mem'
      ensures y in at'.Values
    {
      if y == x {
        assert at'[c] == x;
      } else {
        assert y in at.Values;
        var q :| q in at && at[q] == y;
        assert at'[q] == y;
      }
    }
    forall d
      ensures Lookup(n, mem', at', d) == Lookup(n, mem, at, d)
    {
      if 0 < n == |d| && Parent(d) in at {
        assert at[Parent(d)] != at[p];
      }
    }
  }

  lemma AttachLink(b: nat, n: nat, mem: Mem, root: nat, at: Layout, p: seq<nat>, i: nat, x: nat, q: seq<nat>, j: nat)
    requires Tree(b, n, mem, root, at) && p in at && |p| + 1 < n && i < b && mem[at[p]][i] == 0 && x != 0 && x !in mem
    requires |q| + 1 < n && j < b && (q in at || q == Child(p, i))
    ensures LinkOk(Attach(b, mem, at[p], i, x), at[Child(p, i) := x], q, j)
  {
    var c := Child(p, i);
    assert LinkOk(mem, at, p, i) && Parent(c) == p && Parent(Child(q, j)) == q;
    if q == c {
      assert Parent(Child(c, j)) == c;
    } else {
      assert LinkOk(mem, at, q, j);
      assert at[q] == at[p] ==> q == p;
      assert Child(q, j) == c ==> q == p && j == i by {
        if Child(q, j) == c {
          assert Child(q, j)[|q|] == j && c[|p|] == i;
        }
      }
    }
  }

  /** Writing a value changes that one. */
  lemma WriteTree(b: nat, n: nat, mem: Mem, root: nat, at: Layout, d: seq<nat>, v: nat)
    requires Tree(b, n, mem, root, at) && |d| == n && Parent(d) in at && d[n - 1] < b
    ensures var x := at[Parent(d)];
            var mem' := SetWord(mem, x, d[n - 1], v);
            Tree(b, n, mem', root, at)
            && forall e :: Lookup(n, mem', at, e) == if e == d then v else Lookup(n, mem, at, e)
  {
    var x := at[Parent(d)];
    var mem' := SetWord(mem, x, d[n - 1], v);
    forall q, j: nat | q in at && |q| + 1 < n && j < b
      ensures LinkOk(mem', at, q, j)
    {
      assert LinkOk(mem, at, q, j);
      assert at[q] != x;
    }
    forall e
      ensures Lookup(n, mem', at, e) == if e == d then v else Lookup(n, mem, at, e)
    {
      if |e| == n && Parent(e) in at {
        assert at[Parent(e)] == x ==> Parent(e) == Parent(d);
        assert e == Parent(e) + [e[n - 1]] && d == Parent(d) + [d[n - 1]];
      }
    }
  }
}
