/** Which table pages a mapping needs: the tables on the way to its entries that are not there yet. */
module PageTableNeeds {
  import opened PageTableState

  /** The tables of levels 1 to `level` that the walk for `va` goes through. */
  ghost function Way(va: nat, level: nat): set<Node> {
    if level == 0 then {} else Way(va, level - 1) + {NodeOf(va, level)}
  }

  /** Those that the walks for [lo, hi) go through. */
  ghost function Ways(lo: nat, hi: nat, level: nat): set<Node> {
    if hi <= lo then {} else Ways(lo, hi - 1, level) + Way(hi - 1, level)
  }

  /** Those on the way of one address that are not among the tables `there`. */
  ghost function Lacks(there: set<Node>, va: nat, level: nat): set<Node> {
    Way(va, level) - there
  }

  /** Those on the ways of a range. */
  ghost function Missing(there: set<Node>, lo: nat, hi: nat, level: nat): set<Node> {
    Ways(lo, hi, level) - there
  }

  /** What the huge mapper lacks for 1G entries up to g, 2M entries from there to h, and 4K entries up to end. */
  ghost function HugeMissing(there: set<Node>, va: nat, g: nat, h: nat, end: nat): set<Node> {
    Missing(there, va, g, 1) + Missing(there, g, h, 2) + Missing(there, h, end, 3)
  }

  ghost predicate UpTo(add: set<Node>, level: nat) {
    forall n :: n in add ==> n.level <= level
  }

  lemma {:induction false} WayHas(va: nat, level: nat, l: nat)
    requires 1 <= l <= level
    ensures NodeOf(va, l) in Way(va, level)
  {
    if l < level {
      WayHas(va, level - 1, l);
    }
  }

  lemma {:induction false} WayOf(va: nat, level: nat, n: Node)
    requires n in Way(va, level)
    ensures 1 <= n.level <= level && n == NodeOf(va, n.level)
  {
    if n != NodeOf(va, level) {
      WayOf(va, level - 1, n);
    }
  }

  lemma {:induction false} WaysHas(lo: nat, hi: nat, level: nat, v: nat, l: nat)
    requires lo <= v < hi && 1 <= l <= level
    ensures NodeOf(v, l) in Ways(lo, hi, level)
  {
    if v == hi - 1 {
      WayHas(v, level, l);
    } else {
      WaysHas(lo, hi - 1, level, v, l);
    }
  }

  lemma {:induction false} WaysOf(lo: nat, hi: nat, level: nat, n: Node) returns (v: nat)
    requires n in Ways(lo, hi, level)
    ensures lo <= v < hi && 1 <= n.level <= level && n == NodeOf(v, n.level)
  {
    if n in Way(hi - 1, level) {
      v := hi - 1;
      WayOf(v, level, n);
    } else {
      v := WaysOf(lo, hi - 1, level, n);
    }
  }

  /** A table is on one of these ways exactly if it is on the walk of an address in the range. */
  lemma WaysAre(lo: nat, hi: nat, level: nat)
    ensures Ways(lo, hi, level) == set v: nat, l: nat | lo <= v < hi && 1 <= l <= level :: NodeOf(v, l)
  {
    var all := set v: nat, l: nat | lo <= v < hi && 1 <= l <= level :: NodeOf(v, l);
    forall n | n in Ways(lo, hi, level)
      ensures n in all
    {
      var v := WaysOf(lo, hi, level, n);
    }
    forall n | n in all
      ensures n in Ways(lo, hi, level)
    {
      var v: nat, l: nat :| lo <= v < hi && 1 <= l <= level && n == NodeOf(v, l);
      WaysHas(lo, hi, level, v, l);
    }
  }

  /** Down to `level`, the tables of `add` came to those of `k0`. */
  ghost predicate Came(k0: set<Node>, k1: set<Node>, add: set<Node>, level: nat) {
    forall n: Node :: n.level <= level ==> (n in k1 <==> n in k0 || n in add)
  }

  /** The first `n` frames of the supply were taken. */
  predicate Taken(s0: seq<nat>, s1: seq<nat>, n: nat) {
    n <= |s0| && s1 == s0[n..]
  }

  lemma WayLevels(va: nat, level: nat)
    ensures UpTo(Way(va, level), level)
  {
    forall n | n in Way(va, level)
      ensures n.level <= level
    {
      WayOf(va, level, n);
    }
  }

  lemma WaysLevels(lo: nat, hi: nat, level: nat)
    ensures UpTo(Ways(lo, hi, level), level)
  {
    forall n | n in Ways(lo, hi, level)
      ensures n.level <= level
    {
      var v := WaysOf(lo, hi, level, n);
    }
  }

  lemma NoneMissing(there: set<Node>, va: nat, level: nat)
    ensures Missing(there, va, va, level) == {}
  {
    assert Ways(va, va, level) == {};
  }

  lemma Sizes(a: set<Node>, b: set<Node>)
    ensures a <= b ==> |a| <= |b|
    ensures |a| + |b - a| == |a + b|
  {
    if a <= b {
      assert b == a + (b - a);
    }
    assert a + b == a + (b - a);
  }

  lemma MissingSub(there: set<Node>, lo: nat, hi: nat, lo': nat, hi': nat, level: nat)
    requires lo <= lo' && hi' <= hi
    ensures |Missing(there, lo', hi', level)| <= |Missing(there, lo, hi, level)|
  {
    forall n | n in Ways(lo', hi', level)
      ensures n in Ways(lo, hi, level)
    {
      var v := WaysOf(lo', hi', level, n);
      WaysHas(lo, hi, level, v, n.level);
    }
    Sizes(Missing(there, lo', hi', level), Missing(there, lo, hi, level));
  }

  /** What one more table on the way adds. */
  lemma OneMore(k0: set<Node>, ways: set<Node>, n: Node)
    requires n !in ways
    ensures ways + {n} - k0 == if n in k0 then ways - k0 else (ways - k0) + {n}
    ensures |ways + {n} - k0| == |ways - k0| + (if n in k0 then 0 else 1)
    ensures k0 + (ways + {n} - k0) == k0 + (ways - k0) + {n} && (n in k0 <==> n in k0 + (ways - k0))
  {
    if n in k0 {
      assert ways + {n} - k0 == ways - k0;
    } else {
      assert ways + {n} - k0 == (ways - k0) + {n};
    }
  }

  lemma WayNext(va: nat, level: nat, n: Node)
    requires n == NodeOf(va, level + 1)
    ensures Way(va, level + 1) == Way(va, level) + {n} && n !in Way(va, level)
  {
    if n in Way(va, level) {
      WayOf(va, level, n);
    }
  }

  /** The next table on the way is there already, or there is a frame for it. */
  lemma TableReady(k0: set<Node>, k1: set<Node>, s0: seq<nat>, s1: seq<nat>, va: nat, level: nat, n: Node, depth: nat)
    requires k1 == k0 + Lacks(k0, va, level) && n == NodeOf(va, level + 1) && level < depth
    requires Taken(s0, s1, |Lacks(k0, va, level)|) && |s0| >= |Lacks(k0, va, depth)|
    ensures n in k1 || |s1| > 0
  {
    WayNext(va, level, n);
    WayDeeper(va, level + 1, depth);
    OneMore(k0, Way(va, level), n);
    Sizes(Lacks(k0, va, level + 1), Lacks(k0, va, depth));
  }

  lemma TableAdded(k0: set<Node>, k1: set<Node>, k2: set<Node>, s0: seq<nat>, s1: seq<nat>, s2: seq<nat>, va: nat,
                   level: nat, n: Node)
    requires k1 == k0 + Lacks(k0, va, level) && n == NodeOf(va, level + 1) && k2 == k1 + {n}
    requires Taken(s0, s1, |Lacks(k0, va, level)|) && Taken(s1, s2, if n in k1 then 0 else 1)
    ensures k2 == k0 + Lacks(k0, va, level + 1) && Taken(s0, s2, |Lacks(k0, va, level + 1)|)
  {
    WayNext(va, level, n);
    OneMore(k0, Way(va, level), n);
  }

  lemma {:induction false} LacksCount(k: set<Node>, va: nat, level: nat, depth: nat)
    requires forall l: nat :: 1 <= l <= depth ==> (NodeOf(va, l) in k <==> l <= level)
    ensures |Lacks(k, va, depth)| == if depth <= level then 0 else depth - level
  {
    if depth > 0 {
      LacksCount(k, va, level, depth - 1);
      WayNext(va, depth - 1, NodeOf(va, depth));
      OneMore(k, Way(va, depth - 1), NodeOf(va, depth));
    }
  }

  lemma {:induction false} WayDeeper(va: nat, level: nat, depth: nat)
    requires level <= depth
    ensures Way(va, level) <= Way(va, depth)
    decreases depth
  {
    if level < depth {
      WayDeeper(va, level, depth - 1);
    }
  }

  /** An aligned entry has one way to it. */
  lemma SameWay(v: nat, cva: nat, level: nat, l: nat)
    requires 1 <= l <= level <= 3 && Aligned(cva, level) && cva <= v < cva + EntrySize(level)
    ensures NodeOf(v, l) == NodeOf(cva, l)
  {
    SameNo(v, cva, level);
    NoAbove(v);
    NoAbove(cva);
  }

  lemma SameNo(v: nat, cva: nat, level: nat)
    requires level <= 3 && Aligned(cva, level) && cva <= v < cva + EntrySize(level)
    ensures EntryNo(v, level) == EntryNo(cva, level)
  {
  }

  lemma NoAbove(v: nat)
    ensures EntryNo(v, 0) == EntryNo(v, 1) / ENTRIES && EntryNo(v, 1) == EntryNo(v, 2) / ENTRIES
    ensures EntryNo(v, 2) == EntryNo(v, 3) / ENTRIES
  {
  }

  lemma WaysNext(va: nat, cva: nat, next: nat, level: nat)
    requires 1 <= level <= 3 && Aligned(cva, level) && va <= cva && next == cva + EntrySize(level)
    ensures Ways(va, next, level) == Ways(va, cva, level) + Way(cva, level)
  {
    var all, done, one := Ways(va, next, level), Ways(va, cva, level), Way(cva, level);
    forall n | n in all
      ensures n in done || n in one
    {
      var v := WaysOf(va, next, level, n);
      if v >= cva {
        SameWay(v, cva, level, n.level);
        WayHas(cva, level, n.level);
      } else {
        WaysHas(va, cva, level, v, n.level);
      }
    }
    forall n | n in done
      ensures n in all
    {
      var v := WaysOf(va, cva, level, n);
      WaysHas(va, next, level, v, n.level);
    }
    forall n | n in one
      ensures n in all
    {
      WayOf(cva, level, n);
      WaysHas(va, next, level, cva, n.level);
    }
  }

  lemma {:induction false} WaySize(va: nat, level: nat)
    ensures |Way(va, level)| == level
  {
    if level > 0 {
      WaySize(va, level - 1);
      if NodeOf(va, level) in Way(va, level - 1) {
        WayOf(va, level - 1, NodeOf(va, level));
      }
    }
  }

  /** One page lacks three tables at most, and one 1G entry lacks nothing if its table is there. */
  lemma EntryLacks(k: set<Node>, va: nat, next: nat, level: nat)
    requires 1 <= level <= 3 && Aligned(va, level) && next == va + EntrySize(level)
    ensures Missing(k, va, next, level) == Lacks(k, va, level)
    ensures |Missing(k, va, next, level)| <= level
  {
    WaysNext(va, va, next, level);
    assert Ways(va, va, level) == {};
    WaySize(va, level);
    Sizes(Way(va, level) - k, Way(va, level));
  }

  /** What is left to add for `more` after adding for `ways`. */
  lemma LeftToAdd(k0: set<Node>, k1: set<Node>, ways: set<Node>, more: set<Node>, level: nat)
    requires Came(k0, k1, ways - k0, level) && UpTo(more, level)
    ensures ways + more - k0 == (ways - k0) + (more - k1)
    ensures |ways + more - k0| == |ways - k0| + |more - k1|
  {
    var m, one := ways - k0, more - k1;
    forall n | n in more
      ensures n in one <==> n !in k0 && n !in m
    {
    }
    assert ways + more - k0 == m + one;
    assert one - m == one;
    Sizes(m, one);
  }

  /** What one entry more lacks, after the entries before it were served. */
  lemma MissingNext(k0: set<Node>, k1: set<Node>, va: nat, cva: nat, next: nat, level: nat)
    requires Came(k0, k1, Missing(k0, va, cva, level), level)
    requires 1 <= level <= 3 && Aligned(cva, level) && va <= cva && next == cva + EntrySize(level)
    ensures Missing(k0, va, next, level) == Missing(k0, va, cva, level) + Lacks(k1, cva, level)
    ensures |Missing(k0, va, next, level)| == |Missing(k0, va, cva, level)| + |Lacks(k1, cva, level)|
  {
    WaysNext(va, cva, next, level);
    WayLevels(cva, level);
    LeftToAdd(k0, k1, Ways(va, cva, level), Way(cva, level), level);
  }

  /** A frame was taken for each node of `add`, and these came to the tree. */
  ghost predicate Drew(k0: set<Node>, k1: set<Node>, s0: seq<nat>, s1: seq<nat>, add: set<Node>, level: nat) {
    Came(k0, k1, add, level) && Taken(s0, s1, |add|)
  }

  lemma DrewNothing(k: set<Node>, s: seq<nat>, va: nat, level: nat)
    ensures Drew(k, k, s, s, Missing(k, va, va, level), level)
  {
    NoneMissing(k, va, level);
  }

  lemma DrewBoth(k0: set<Node>, k1: set<Node>, k2: set<Node>, s0: seq<nat>, s1: seq<nat>, s2: seq<nat>, x: set<Node>,
                 y: set<Node>, both: set<Node>, level: nat)
    requires Drew(k0, k1, s0, s1, x, level) && Drew(k1, k2, s1, s2, y, level) && both == x + y && |both| == |x| + |y|
    ensures Drew(k0, k2, s0, s2, both, level)
  {
  }

  /** Before a round of a mapping loop there are enough frames for it if there were enough for the whole range. */
  lemma EnoughForRound(k0: set<Node>, k1: set<Node>, s0: seq<nat>, s1: seq<nat>, va: nat, cva: nat, next: nat,
                       stop: nat, level: nat)
    requires Drew(k0, k1, s0, s1, Missing(k0, va, cva, level), level) && |s0| >= |Missing(k0, va, stop, level)|
    requires 1 <= level <= 3 && Aligned(cva, level) && va <= cva && next == cva + EntrySize(level) <= stop
    ensures |Lacks(k1, cva, level)| <= |s1|
  {
    MissingNext(k0, k1, va, cva, next, level);
    MissingSub(k0, va, stop, va, next, level);
  }

  /** After the round, frames were drawn for what the range lacked up to there. */
  lemma DrewRound(k0: set<Node>, k1: set<Node>, k2: set<Node>, s0: seq<nat>, s1: seq<nat>, s2: seq<nat>, va: nat,
                  cva: nat, next: nat, level: nat)
    requires Drew(k0, k1, s0, s1, Missing(k0, va, cva, level), level)
    requires Drew(k1, k2, s1, s2, Lacks(k1, cva, level), level)
    requires 1 <= level <= 3 && Aligned(cva, level) && va <= cva && next == cva + EntrySize(level)
    ensures Drew(k0, k2, s0, s2, Missing(k0, va, next, level), level)
  {
    MissingNext(k0, k1, va, cva, next, level);
    DrewBoth(k0, k1, k2, s0, s1, s2, Missing(k0, va, cva, level), Lacks(k1, cva, level),
             Missing(k0, va, next, level), level);
  }

  /** What a later range lacks once `add` came for an earlier one. */
  lemma MissingLater(k0: set<Node>, k1: set<Node>, add: set<Node>, level: nat, lo: nat, hi: nat, depth: nat)
    requires Came(k0, k1, add, level) && UpTo(add, level)
    requires forall n :: n in Ways(lo, hi, depth) && n.level > level ==> (n in k1 <==> n in k0)
    ensures Missing(k1, lo, hi, depth) == Missing(k0, lo, hi, depth) - add
  {
  }

  // ------------------------------------------------------------------------ the phases of the huge mapper

  lemma FirstPhase(k: set<Node>, va: nat, g: nat, h: nat, end: nat)
    ensures |Missing(k, va, g, 1)| <= |HugeMissing(k, va, g, h, end)|
  {
    Sizes(Missing(k, va, g, 1), HugeMissing(k, va, g, h, end));
  }

  lemma FirstTwo(k0: set<Node>, k1: set<Node>, va: nat, g: nat, h: nat, end: nat)
    requires Missing(k1, g, h, 2) == Missing(k0, g, h, 2) - Missing(k0, va, g, 1)
    ensures |Missing(k0, va, g, 1)| + |Missing(k1, g, h, 2)| <= |HugeMissing(k0, va, g, h, end)|
  {
    Sizes(Missing(k0, va, g, 1), Missing(k0, g, h, 2));
    Sizes(Missing(k0, va, g, 1) + Missing(k0, g, h, 2), HugeMissing(k0, va, g, h, end));
  }

  /** Of the frames for `all`, those for `left` are still to be taken. */
  ghost predicate HugeDrew(all: set<Node>, left: set<Node>, s0: seq<nat>, s2: seq<nat>) {
    |left| <= |all| && Taken(s0, s2, |all| - |left|)
  }

  /** What the three loops lack, one after the other, is what they lack together. */
  lemma AllThree(a: set<Node>, b: set<Node>, c: set<Node>, b1: set<Node>, c2: set<Node>, s0: seq<nat>, s1: seq<nat>,
                 s2: seq<nat>)
    requires b1 == b - a && c2 == c - a - b1 && Taken(s0, s1, |a|) && Taken(s1, s2, |b1|)
    ensures HugeDrew(a + b + c, c2, s0, s2)
  {
    Sizes(a, b);
    Sizes(a + b, c);
    assert c - (a + b) == c2;
  }
}
