/** Walking a whole radix tree: freeing it with a deleter, and scanning it with a callback. */
module RadixWalk {
  import opened Common
  import opened RadixTree
  import R = Radix

  /** Digits of a key, with its value. */
  type Visit = seq<(seq<nat>, nat)>

  /** The live values below node `p`, from its word `i` on, as the recursive walks meet them. */
  ghost function Entries(b: nat, n: nat, mem: Mem, at: Layout, p: seq<nat>, i: nat): Visit
    requires |p| < n && i <= b
    decreases n - |p|, b - i, 1
  {
    if i == b || p !in at || at[p] !in mem || |mem[at[p]]| != b then []
    else EntriesHere(b, n, mem, at, p, i) + Entries(b, n, mem, at, p, i + 1)
  }

  /** Those through word `i` alone. */
  ghost function EntriesHere(b: nat, n: nat, mem: Mem, at: Layout, p: seq<nat>, i: nat): Visit
    requires |p| < n && i < b && p in at && at[p] in mem && |mem[at[p]]| == b
    decreases n - |p|, b - i, 0
  {
    if |p| + 1 == n then (if mem[at[p]][i] != 0 then [(Child(p, i), mem[at[p]][i])] else [])
    else if Child(p, i) in at then Entries(b, n, mem, at, Child(p, i), 0) else []
  }

  function Values(vs: Visit): (r: seq<nat>)
    ensures |r| == |vs| && forall k :: 0 <= k < |vs| ==> r[k] == vs[k].1
  {
    seq(|vs|, k requires 0 <= k < |vs| => vs[k].1)
  }

  // ------------------------------------------------------------------- what the walks meet, and in which order

  /** `d` is a full sequence of digits that leads through word `i` or a later word of node `p`. */
  predicate Through(n: nat, p: seq<nat>, i: nat, d: seq<nat>) {
    |d| == n && |p| < n && p <= d && i <= d[|p|]
  }

  /** The first difference decides, wherever it is. */
  lemma {:induction false} LessAt(d: seq<nat>, e: seq<nat>, k: nat)
    requires |d| == |e| && k < |d| && d[..k] == e[..k] && d[k] < e[k]
    ensures Less(d, e)
    decreases |d|
  {
    var m := |d| - 1;
    if k < m {
      assert d[..m][..k] == d[..k] && e[..m][..k] == e[..k];
      LessAt(d[..m], e[..m], k);
    }
  }

  /** Where there is no child, there is no value. */
  lemma NothingBelow(b: nat, n: nat, mem: Mem, root: nat, at: Layout, p: seq<nat>, i: nat, d: seq<nat>)
    requires Tree(b, n, mem, root, at) && |p| + 1 < n == |d| && Child(p, i) !in at && Child(p, i) <= d
    ensures Lookup(n, mem, at, d) == 0
  {
    assert Parent(d)[..|p| + 1] == Child(p, i);
    R.PathEnds(b, n, mem, root, at, Parent(d), |p| + 1);
  }

  /** Every entry of `vs` is a live value whose digits lead through word `i` or a later one. */
  ghost predicate Sound(n: nat, mem: Mem, at: Layout, p: seq<nat>, i: nat, vs: Visit) {
    forall k :: 0 <= k < |vs| ==> Through(n, p, i, vs[k].0) && vs[k].1 == Lookup(n, mem, at, vs[k].0) != 0
  }

  lemma {:induction false} EntriesSound(b: nat, n: nat, mem: Mem, root: nat, at: Layout, p: seq<nat>, i: nat)
    requires Tree(b, n, mem, root, at) && p in at && i <= b
    ensures Sound(n, mem, at, p, i, Entries(b, n, mem, at, p, i))
    decreases n - |p|, b - i, 1
  {
    if i < b {
      EntriesSound(b, n, mem, root, at, p, i + 1);
      HereSound(b, n, mem, root, at, p, i);
    }
  }

  lemma {:induction false} HereSound(b: nat, n: nat, mem: Mem, root: nat, at: Layout, p: seq<nat>, i: nat)
    requires Tree(b, n, mem, root, at) && p in at && i < b
    ensures Sound(n, mem, at, p, i, EntriesHere(b, n, mem, at, p, i))
    ensures forall k :: 0 <= k < |EntriesHere(b, n, mem, at, p, i)| ==>
              Child(p, i) <= EntriesHere(b, n, mem, at, p, i)[k].0
    decreases n - |p|, b - i, 0
  {
    var c := Child(p, i);
    assert Parent(c) == p;
    if |p| + 1 < n && c in at {
      EntriesSound(b, n, mem, root, at, c, 0);
    }
  }

  ghost predicate Meets(vs: Visit, d: seq<nat>) {
    exists k :: 0 <= k < |vs| && vs[k].0 == d
  }

  lemma MeetsConcat(vs: Visit, ws: Visit, d: seq<nat>)
    requires Meets(vs, d) || Meets(ws, d)
    ensures Meets(vs + ws, d)
  {
    if Meets(vs, d) {
      var k :| 0 <= k < |vs| && vs[k].0 == d;
      assert (vs + ws)[k].0 == d;
    } else {
      var k :| 0 <= k < |ws| && ws[k].0 == d;
      assert (vs + ws)[|vs| + k].0 == d;
    }
  }

  lemma {:induction false} EntriesComplete(b: nat, n: nat, mem: Mem, root: nat, at: Layout, p: seq<nat>, i: nat,
                                           d: seq<nat>)
    requires Tree(b, n, mem, root, at) && p in at && i <= b && Through(n, p, i, d) && IsPath(b, d)
             && Lookup(n, mem, at, d) != 0
    ensures Meets(Entries(b, n, mem, at, p, i), d)
    decreases n - |p|, b - i, 1
  {
    if d[|p|] > i {
      EntriesComplete(b, n, mem, root, at, p, i + 1, d);
    } else {
      HereComplete(b, n, mem, root, at, p, i, d);
    }
    MeetsConcat(EntriesHere(b, n, mem, at, p, i), Entries(b, n, mem, at, p, i + 1), d);
  }

  lemma {:induction false} HereComplete(b: nat, n: nat, mem: Mem, root: nat, at: Layout, p: seq<nat>, i: nat,
                                        d: seq<nat>)
    requires Tree(b, n, mem, root, at) && p in at && i < b && Through(n, p, i, d) && d[|p|] == i && IsPath(b, d)
             && Lookup(n, mem, at, d) != 0
    ensures Meets(EntriesHere(b, n, mem, at, p, i), d)
    decreases n - |p|, b - i, 0
  {
    var c := Child(p, i);
    assert c <= d;
    if |p| + 1 == n {
      assert d == c && Parent(d) == p;
      assert EntriesHere(b, n, mem, at, p, i)[0].0 == d;
    } else if c !in at {
      NothingBelow(b, n, mem, root, at, p, i, d);
    } else {
      EntriesComplete(b, n, mem, root, at, c, 0, d);
    }
  }

  ghost predicate Ascending(vs: Visit, n: nat) {
    && (forall k :: 0 <= k < |vs| ==> |vs[k].0| == n)
    && (forall k, l :: 0 <= k < l < |vs| ==> Less(vs[k].0, vs[l].0))
  }

  lemma AscendingConcat(vs: Visit, ws: Visit, n: nat, k: nat)
    requires Ascending(vs, n) && Ascending(ws, n) && k < n
    requires forall x, y :: 0 <= x < |vs| && 0 <= y < |ws| ==> vs[x].0[..k] == ws[y].0[..k] && vs[x].0[k] < ws[y].0[k]
    ensures Ascending(vs + ws, n)
  {
    var zs := vs + ws;
    forall x, y | 0 <= x < y < |zs|
      ensures Less(zs[x].0, zs[y].0)
    {
      if x < |vs| <= y {
        assert zs[x] == vs[x] && zs[y] == ws[y - |vs|];
        LessAt(zs[x].0, zs[y].0, k);
      }
    }
  }

  lemma {:induction false} EntriesAscending(b: nat, n: nat, mem: Mem, root: nat, at: Layout, p: seq<nat>, i: nat)
    requires Tree(b, n, mem, root, at) && p in at && i <= b
    ensures Ascending(Entries(b, n, mem, at, p, i), n)
    decreases n - |p|, b - i
  {
    if i < b {
      var here, rest := EntriesHere(b, n, mem, at, p, i), Entries(b, n, mem, at, p, i + 1);
      EntriesAscending(b, n, mem, root, at, p, i + 1);
      EntriesSound(b, n, mem, root, at, p, i + 1);
      HereSound(b, n, mem, root, at, p, i);
      if |p| + 1 < n && Child(p, i) in at {
        EntriesAscending(b, n, mem, root, at, Child(p, i), 0);
      }
      forall x | 0 <= x < |here|
        ensures here[x].0[..|p|] == p && here[x].0[|p|] == i
      {
        assert Child(p, i) <= here[x].0;
      }
      AscendingConcat(here, rest, n, |p|);
    }
  }

  /** The walk from the root meets every live value exactly once, in ascending order of the keys. */
  lemma WalkMeetsAll(b: nat, n: nat, mem: Mem, root: nat, at: Layout)
    requires Tree(b, n, mem, root, at) && root != 0
    ensures var vs := Entries(b, n, mem, at, [], 0);
            && Ascending(vs, n)
            && (forall k, l :: 0 <= k < l < |vs| ==> KeyOf(b, vs[k].0) < KeyOf(b, vs[l].0))
            && (forall k :: 0 <= k < |vs| ==> vs[k].1 == Lookup(n, mem, at, vs[k].0) != 0)
            && (forall d :: |d| == n && IsPath(b, d) && Lookup(n, mem, at, d) != 0 ==> Meets(vs, d))
  {
    var vs := Entries(b, n, mem, at, [], 0);
    EntriesSound(b, n, mem, root, at, [], 0);
    EntriesAscending(b, n, mem, root, at, [], 0);
    forall d | |d| == n && IsPath(b, d) && Lookup(n, mem, at, d) != 0
      ensures Meets(vs, d)
    {
      EntriesComplete(b, n, mem, root, at, [], 0, d);
    }
    forall k, l | 0 <= k < l < |vs|
      ensures KeyOf(b, vs[k].0) < KeyOf(b, vs[l].0)
    {
      FoundIsPath(b, n, mem, root, at, vs[k].0);
      FoundIsPath(b, n, mem, root, at, vs[l].0);
      LessIsSmaller(b, vs[k].0, vs[l].0);
    }
  }

  lemma FoundIsPath(b: nat, n: nat, mem: Mem, root: nat, at: Layout, d: seq<nat>)
    requires Tree(b, n, mem, root, at) && |d| == n && Lookup(n, mem, at, d) != 0
    ensures IsPath(b, d)
  {
    assert IsPath(b, Parent(d));
    assert d == Parent(d) + [d[n - 1]];
  }

  // ----------------------------------------------------------------------------- walks that begin at a key

  /** The live values below node `p` whose digits are not before the digits `s` of the start, as the scan meets them. */
  ghost function EntriesFrom(b: nat, n: nat, mem: Mem, at: Layout, p: seq<nat>, s: seq<nat>): Visit
    requires |p| < n == |s|
    decreases n - |p|, 1
  {
    if p !in at || at[p] !in mem || |mem[at[p]]| != b || s[|p|] >= b then []
    else HereFrom(b, n, mem, at, p, s[|p|], s) + Entries(b, n, mem, at, p, s[|p|] + 1)
  }

  /** Those through word `i` alone, when the start is passed on to the child. */
  ghost function HereFrom(b: nat, n: nat, mem: Mem, at: Layout, p: seq<nat>, i: nat, s: seq<nat>): Visit
    requires |p| < n == |s| && i < b && p in at && at[p] in mem && |mem[at[p]]| == b
    decreases n - |p|, 0
  {
    if |p| + 1 == n then EntriesHere(b, n, mem, at, p, i)
    else if Child(p, i) in at then EntriesFrom(b, n, mem, at, Child(p, i), s) else []
  }

  /** From key 0 on, these are all. */
  lemma {:induction false} FromZeros(b: nat, n: nat, mem: Mem, root: nat, at: Layout, p: seq<nat>, s: seq<nat>)
    requires Tree(b, n, mem, root, at) && p in at && |s| == n && forall i :: 0 <= i < n ==> s[i] == 0
    ensures IsPath(b, s) && EntriesFrom(b, n, mem, at, p, s) == Entries(b, n, mem, at, p, 0)
    ensures forall i: nat :: i < b ==> HereFrom(b, n, mem, at, p, i, s) == EntriesHere(b, n, mem, at, p, i)
    decreases n - |p|
  {
    forall i: nat | i < b
      ensures HereFrom(b, n, mem, at, p, i, s) == EntriesHere(b, n, mem, at, p, i)
    {
      if |p| + 1 < n && Child(p, i) in at {
        FromZeros(b, n, mem, root, at, Child(p, i), s);
      }
    }
  }

  /** The entries have digits that lead through word `i` of `p`. */
  ghost predicate AllThrough(n: nat, p: seq<nat>, i: nat, vs: Visit) {
    forall k :: 0 <= k < |vs| ==> |vs[k].0| == n && |p| < n && p <= vs[k].0 && vs[k].0[|p|] == i
  }

  /** The entries are live values below `p` whose keys are not below that of `s`. */
  ghost predicate SoundFrom(b: nat, n: nat, mem: Mem, at: Layout, p: seq<nat>, s: seq<nat>, vs: Visit) {
    forall k :: 0 <= k < |vs| ==>
      && |vs[k].0| == n && p <= vs[k].0 && vs[k].1 == Lookup(n, mem, at, vs[k].0) != 0
      && IsPath(b, vs[k].0) && KeyOf(b, s) <= KeyOf(b, vs[k].0)
  }

  /** What lies through later words is after the start. */
  lemma LaterSound(b: nat, n: nat, mem: Mem, root: nat, at: Layout, p: seq<nat>, s: seq<nat>)
    requires Tree(b, n, mem, root, at) && p in at && |s| == n && IsPath(b, s) && p <= s
    ensures SoundFrom(b, n, mem, at, p, s, Entries(b, n, mem, at, p, s[|p|] + 1))
  {
    var rest := Entries(b, n, mem, at, p, s[|p|] + 1);
    EntriesSound(b, n, mem, root, at, p, s[|p|] + 1);
    forall k | 0 <= k < |rest|
      ensures p <= rest[k].0 && IsPath(b, rest[k].0) && KeyOf(b, s) <= KeyOf(b, rest[k].0)
    {
      assert Through(n, p, s[|p|] + 1, rest[k].0);
      FoundIsPath(b, n, mem, root, at, rest[k].0);
      LessAt(s, rest[k].0, |p|);
      LessIsSmaller(b, s, rest[k].0);
    }
  }

  /** What the scan meets is live and not below the start. */
  lemma {:induction false} FromSound(b: nat, n: nat, mem: Mem, root: nat, at: Layout, p: seq<nat>, s: seq<nat>)
    requires Tree(b, n, mem, root, at) && p in at && |s| == n && IsPath(b, s) && p <= s
    ensures SoundFrom(b, n, mem, at, p, s, EntriesFrom(b, n, mem, at, p, s))
    decreases n - |p|, 1
  {
    LaterSound(b, n, mem, root, at, p, s);
    HereFromSound(b, n, mem, root, at, p, s);
  }

  lemma {:induction false} HereFromSound(b: nat, n: nat, mem: Mem, root: nat, at: Layout, p: seq<nat>, s: seq<nat>)
    requires Tree(b, n, mem, root, at) && p in at && |s| == n && IsPath(b, s) && p <= s
    ensures SoundFrom(b, n, mem, at, p, s, HereFrom(b, n, mem, at, p, s[|p|], s))
    ensures AllThrough(n, p, s[|p|], HereFrom(b, n, mem, at, p, s[|p|], s))
    decreases n - |p|, 0
  {
    var i := s[|p|];
    var c := Child(p, i);
    assert c == s[..|p| + 1];
    if |p| + 1 == n {
      assert c == s;
      HereSound(b, n, mem, root, at, p, i);
    } else if c in at {
      FromSound(b, n, mem, root, at, c, s);
      forall k | 0 <= k < |EntriesFrom(b, n, mem, at, c, s)|
        ensures p <= EntriesFrom(b, n, mem, at, c, s)[k].0 && EntriesFrom(b, n, mem, at, c, s)[k].0[|p|] == i
      {
        assert c <= EntriesFrom(b, n, mem, at, c, s)[k].0;
      }
    }
  }

  /** The first difference of the digits, if there is one, is in favour of `d`. */
  ghost predicate From(s: seq<nat>, d: seq<nat>) {
    |s| == |d| && (s == d || exists k :: 0 <= k < |s| && s[..k] == d[..k] && s[k] < d[k])
  }

  /** That is so for all keys that are not below the start. */
  lemma KeyFrom(b: nat, s: seq<nat>, d: seq<nat>)
    requires |s| == |d| && IsPath(b, s) && IsPath(b, d) && KeyOf(b, s) <= KeyOf(b, d)
    ensures From(s, d)
  {
    if s != d {
      var k := FirstDifference(s, d);
      if d[k] < s[k] {
        LessAt(d, s, k);
        LessIsSmaller(b, d, s);
      }
    }
  }

  lemma {:induction false} FirstDifference(s: seq<nat>, d: seq<nat>) returns (k: nat)
    requires |s| == |d| && s != d
    ensures k < |s| && s[..k] == d[..k] && s[k] != d[k]
    decreases |s|
  {
    var m := |s| - 1;
    if s[..m] == d[..m] {
      k := m;
      assert s == s[..m] + [s[m]] && d == d[..m] + [d[m]];
    } else {
      k := FirstDifference(s[..m], d[..m]);
      assert s[..m][..k] == s[..k] && d[..m][..k] == d[..k];
    }
  }

  /** With the same leading digits, the next one is not smaller. */
  lemma NextDigit(s: seq<nat>, d: seq<nat>, k: nat)
    requires From(s, d) && k < |s| && s[..k] == d[..k]
    ensures s[k] <= d[k]
  {
    if s != d {
      var l :| 0 <= l < |s| && s[..l] == d[..l] && s[l] < d[l];
      assert k < l ==> s[..l][k] == d[..l][k];
    }
  }

  /** The scan meets every live value that is not below the start. */
  lemma {:induction false} FromComplete(b: nat, n: nat, mem: Mem, root: nat, at: Layout, p: seq<nat>, s: seq<nat>,
                                        d: seq<nat>)
    requires Tree(b, n, mem, root, at) && p in at && |s| == n == |d| && IsPath(b, s) && p <= s && p <= d
    requires IsPath(b, d) && Lookup(n, mem, at, d) != 0 && From(s, d)
    ensures Meets(EntriesFrom(b, n, mem, at, p, s), d)
    decreases n - |p|, 1
  {
    assert s[..|p|] == d[..|p|];
    NextDigit(s, d, |p|);
    if d[|p|] > s[|p|] {
      assert Through(n, p, s[|p|] + 1, d) && s[|p|] < b;
      EntriesComplete(b, n, mem, root, at, p, s[|p|] + 1, d);
    } else {
      HereFromComplete(b, n, mem, root, at, p, s, d);
    }
    FromMeets(b, n, mem, root, at, p, s, d);
  }

  lemma FromMeets(b: nat, n: nat, mem: Mem, root: nat, at: Layout, p: seq<nat>, s: seq<nat>, d: seq<nat>)
    requires Tree(b, n, mem, root, at) && p in at && |s| == n && IsPath(b, s)
    requires Meets(HereFrom(b, n, mem, at, p, s[|p|], s), d) || Meets(Entries(b, n, mem, at, p, s[|p|] + 1), d)
    ensures Meets(EntriesFrom(b, n, mem, at, p, s), d)
  {
    MeetsConcat(HereFrom(b, n, mem, at, p, s[|p|], s), Entries(b, n, mem, at, p, s[|p|] + 1), d);
  }

  lemma {:induction false} HereFromComplete(b: nat, n: nat, mem: Mem, root: nat, at: Layout, p: seq<nat>, s: seq<nat>,
                                            d: seq<nat>)
    requires Tree(b, n, mem, root, at) && p in at && |s| == n == |d| && IsPath(b, s) && p <= s && p <= d
             && d[|p|] == s[|p|]
    requires IsPath(b, d) && Lookup(n, mem, at, d) != 0 && From(s, d)
    ensures Meets(HereFrom(b, n, mem, at, p, s[|p|], s), d)
    decreases n - |p|, 0
  {
    var c := Child(p, s[|p|]);
    assert c == s[..|p| + 1] && c == d[..|p| + 1];
    if |p| + 1 == n {
      HereComplete(b, n, mem, root, at, p, s[|p|], d);
    } else if c !in at {
      NothingBelow(b, n, mem, root, at, p, s[|p|], d);
    } else {
      FromComplete(b, n, mem, root, at, c, s, d);
    }
  }

  /** Entries through word `i` before entries through later words. */
  lemma AscendingThrough(vs: Visit, ws: Visit, n: nat, mem: Mem, at: Layout, p: seq<nat>, i: nat)
    requires Ascending(vs, n) && Ascending(ws, n) && AllThrough(n, p, i, vs) && Sound(n, mem, at, p, i + 1, ws)
             && |p| < n
    ensures Ascending(vs + ws, n)
  {
    forall x, y | 0 <= x < |vs| && 0 <= y < |ws|
      ensures vs[x].0[..|p|] == ws[y].0[..|p|] && vs[x].0[|p|] < ws[y].0[|p|]
    {
      assert Through(n, p, i + 1, ws[y].0);
    }
    AscendingConcat(vs, ws, n, |p|);
  }

  lemma {:induction false} FromAscending(b: nat, n: nat, mem: Mem, root: nat, at: Layout, p: seq<nat>, s: seq<nat>)
    requires Tree(b, n, mem, root, at) && p in at && |s| == n && IsPath(b, s) && p <= s
    ensures Ascending(EntriesFrom(b, n, mem, at, p, s), n)
    decreases n - |p|
  {
    var i := s[|p|];
    var here, rest := HereFrom(b, n, mem, at, p, i, s), Entries(b, n, mem, at, p, i + 1);
    EntriesAscending(b, n, mem, root, at, p, i + 1);
    EntriesSound(b, n, mem, root, at, p, i + 1);
    HereFromSound(b, n, mem, root, at, p, s);
    if |p| + 1 < n && Child(p, i) in at {
      assert Child(p, i) == s[..|p| + 1];
      FromAscending(b, n, mem, root, at, Child(p, i), s);
    }
    assert Ascending(here, n);
    AscendingThrough(here, rest, n, mem, at, p, i);
  }

  /** The keys of the entries ascend. */
  ghost predicate KeysAscend(b: nat, vs: Visit) {
    forall k, l :: 0 <= k < l < |vs| ==> KeyOf(b, vs[k].0) < KeyOf(b, vs[l].0)
  }

  lemma AscendingKeys(b: nat, n: nat, vs: Visit)
    requires Ascending(vs, n) && forall k :: 0 <= k < |vs| ==> IsPath(b, vs[k].0)
    ensures KeysAscend(b, vs)
  {
    forall k, l | 0 <= k < l < |vs|
      ensures KeyOf(b, vs[k].0) < KeyOf(b, vs[l].0)
    {
      LessIsSmaller(b, vs[k].0, vs[l].0);
    }
  }

  /** A scan from the root meets the live values of all keys from the start on, in ascending order. */
  lemma ScanMeetsFrom(b: nat, n: nat, mem: Mem, root: nat, at: Layout, start: nat)
    requires Tree(b, n, mem, root, at) && root != 0 && start < Pow(b, n)
    ensures var vs := EntriesFrom(b, n, mem, at, [], Digits(b, n, start));
            && KeysAscend(b, vs)
            && (forall k :: 0 <= k < |vs| ==> vs[k].1 == Lookup(n, mem, at, vs[k].0) != 0 && KeyOf(b, vs[k].0) >= start)
            && (forall d :: |d| == n && IsPath(b, d) && Lookup(n, mem, at, d) != 0 && KeyOf(b, d) >= start ==>
                  Meets(vs, d))
  {
    var s := Digits(b, n, start);
    DigitsKey(b, n, start);
    ScanDigits(b, n, mem, root, at, s);
  }

  lemma ScanDigits(b: nat, n: nat, mem: Mem, root: nat, at: Layout, s: seq<nat>)
    requires Tree(b, n, mem, root, at) && root != 0 && |s| == n && IsPath(b, s)
    ensures var vs := EntriesFrom(b, n, mem, at, [], s);
            && KeysAscend(b, vs) && SoundFrom(b, n, mem, at, [], s, vs)
            && (forall d :: |d| == n && IsPath(b, d) && Lookup(n, mem, at, d) != 0 && KeyOf(b, d) >= KeyOf(b, s) ==>
                  Meets(vs, d))
  {
    var vs := EntriesFrom(b, n, mem, at, [], s);
    FromSound(b, n, mem, root, at, [], s);
    FromAscending(b, n, mem, root, at, [], s);
    AscendingKeys(b, n, vs);
    forall d | |d| == n && IsPath(b, d) && Lookup(n, mem, at, d) != 0 && KeyOf(b, d) >= KeyOf(b, s)
      ensures Meets(vs, d)
    {
      KeyFrom(b, s, d);
      FromComplete(b, n, mem, root, at, [], s, d);
    }
  }

  // ------------------------------------------------------------------------------------------ the walks

  /** Node `q` is below one of the first `i` words of node `p`. */
  predicate BelowFirst(p: seq<nat>, i: nat, q: seq<nat>) {
    |p| < |q| && p <= q && q[|p|] < i
  }

  /** The nodes in `freed` are those below the first `i` words of `p`, each once. */
  ghost predicate FreedFirst(at: Layout, p: seq<nat>, i: nat, freed: seq<nat>) {
    && NoDup(freed)
    && (forall q :: q in at && BelowFirst(p, i, q) ==> at[q] in freed)
    && (forall x :: x in freed ==> exists q :: q in at && BelowFirst(p, i, q) && at[q] == x)
  }

  /** The nodes in `freed` are `p` and those below it, each once. */
  ghost predicate FreedAll(at: Layout, p: seq<nat>, freed: seq<nat>) {
    && NoDup(freed)
    && (forall q :: q in at && p <= q ==> at[q] in freed)
    && (forall x :: x in freed ==> exists q :: q in at && p <= q && at[q] == x)
  }

  /** One more word of `p`. */
  lemma FreedNext(b: nat, n: nat, mem: Mem, root: nat, at: Layout, p: seq<nat>, i: nat, freed: seq<nat>, sub: seq<nat>)
    requires Tree(b, n, mem, root, at) && p in at && i < b && FreedFirst(at, p, i, freed)
    requires if Child(p, i) in at then FreedAll(at, Child(p, i), sub) else sub == []
    ensures FreedFirst(at, p, i + 1, freed + sub)
  {
    var c := Child(p, i);
    forall q | q in at && BelowFirst(p, i + 1, q)
      ensures at[q] in freed + sub
    {
      if q[|p|] == i {
        assert q[..|p| + 1] == c;
        if c !in at {
          R.PathEnds(b, n, mem, root, at, q, |p| + 1);
        }
      }
    }
    forall x | x in freed + sub
      ensures exists q :: q in at && BelowFirst(p, i + 1, q) && at[q] == x
    {
      if x in freed {
        var q :| q in at && BelowFirst(p, i, q) && at[q] == x;
        assert BelowFirst(p, i + 1, q);
      } else {
        var q :| q in at && c <= q && at[q] == x;
        assert BelowFirst(p, i + 1, q);
      }
    }
    forall x | x in freed
      ensures x !in sub
    {
      var q :| q in at && BelowFirst(p, i, q) && at[q] == x;
      assert !(c <= q);
      assert forall r :: r in at && c <= r ==> at[r] != x;
    }
    NoDupConcat(freed, sub);
  }

  lemma FreedLast(b: nat, n: nat, mem: Mem, root: nat, at: Layout, p: seq<nat>, freed: seq<nat>)
    requires Tree(b, n, mem, root, at) && p in at && FreedFirst(at, p, b, freed)
    ensures FreedAll(at, p, freed + [at[p]])
  {
    assert at[p] !in freed;
    NoDupConcat(freed, [at[p]]);
    var all := freed + [at[p]];
    forall q | q in at && p <= q
      ensures at[q] in all
    {
      if |q| == |p| {
        assert q == p && all[|freed|] == at[p];
      } else {
        assert IsPath(b, q);
        assert BelowFirst(p, b, q);
        assert at[q] in freed;
      }
    }
    forall x | x in all
      ensures exists q :: q in at && p <= q && at[q] == x
    {
      if x in freed {
        var q :| q in at && BelowFirst(p, b, q) && at[q] == x;
      } else {
        assert x == at[p] && p <= p;
      }
    }
  }

  /** What the deleter is called with, if there is one. */
  ghost function Called(deleter: bool, vs: Visit): seq<nat> {
    if deleter then Values(vs) else []
  }

  ghost predicate FreedSo(kernel: bool, at: Layout, p: seq<nat>, i: nat, freed: seq<nat>) {
    if kernel then FreedFirst(at, p, i, freed) else freed == []
  }

  lemma Assoc(a: seq<nat>, b: seq<nat>, c: seq<nat>)
    ensures a + (b + c) == a + b + c
  {
  }

  /** One round more. */
  lemma FreeStep(b: nat, n: nat, mem: Mem, root: nat, at: Layout, p: seq<nat>, i: nat, deleter: bool, kernel: bool,
                 deleted: seq<nat>, here: seq<nat>, freed: seq<nat>, sub: seq<nat>)
    requires Tree(b, n, mem, root, at) && p in at && i < b && FreedSo(kernel, at, p, i, freed)
    requires deleted + Called(deleter, Entries(b, n, mem, at, p, i)) == Called(deleter, Entries(b, n, mem, at, p, 0))
    requires here == Called(deleter, EntriesHere(b, n, mem, at, p, i))
    requires if kernel && Child(p, i) in at then FreedAll(at, Child(p, i), sub) else sub == []
    ensures (deleted + here) + Called(deleter, Entries(b, n, mem, at, p, i + 1))
            == Called(deleter, Entries(b, n, mem, at, p, 0))
    ensures FreedSo(kernel, at, p, i + 1, freed + sub)
  {
    EntriesStep(b, n, mem, root, at, p, i);
    Assoc(deleted, here, Called(deleter, Entries(b, n, mem, at, p, i + 1)));
    if kernel {
      FreedNext(b, n, mem, root, at, p, i, freed, sub);
    }
  }

  /** radix_free_node: `deleted` is what the deleter is called with, if there is one, and `freed` are the nodes that
      are freed; only the kernel frees them. */
  method FreeNode(t: R.Radix, node: nat, level: nat, deleter: bool, kernel: bool, ghost p: seq<nat>)
    returns (deleted: seq<nat>, freed: seq<nat>)
    requires t.Valid() && p in t.at && level == |p| && node == t.at[p]
    ensures deleted == Called(deleter, Entries(t.base, t.levels, t.mem, t.at, p, 0))
    ensures if kernel then FreedAll(t.at, p, freed) else freed == []
    decreases t.levels - level, 1
  {
    ghost var all := Called(deleter, Entries(t.base, t.levels, t.mem, t.at, p, 0));
    deleted, freed := [], [];
    for i := 0 to t.base
      invariant deleted + Called(deleter, Entries(t.base, t.levels, t.mem, t.at, p, i)) == all
                && FreedSo(kernel, t.at, p, i, freed)
    {
      var here, sub := FreeWord(t, t.mem[node][i], level, deleter, kernel, p, i);
      FreeStep(t.base, t.levels, t.mem, t.root, t.at, p, i, deleter, kernel, deleted, here, freed, sub);
      deleted, freed := deleted + here, freed + sub;
    }
    if kernel {
      FreedLast(t.base, t.levels, t.mem, t.root, t.at, p, freed);
      freed := freed + [node];
    }
  }

  /** One round of the loops of radix_free_node. */
  method FreeWord(t: R.Radix, x: nat, level: nat, deleter: bool, kernel: bool, ghost p: seq<nat>, ghost i: nat)
      returns (here: seq<nat>, sub: seq<nat>)
    requires t.Valid() && p in t.at && level == |p| && i < t.base && x == t.mem[t.at[p]][i]
    ensures here == Called(deleter, EntriesHere(t.base, t.levels, t.mem, t.at, p, i))
    ensures if kernel && Child(p, i) in t.at then FreedAll(t.at, Child(p, i), sub) else sub == []
    decreases t.levels - level, 0
  {
    here, sub := [], [];
    if level == t.levels - 1 {
      if deleter && x != 0 {
        here := [x];
      }
    } else {
      assert LinkOk(t.mem, t.at, p, i);
      if x != 0 {
        here, sub := FreeNode(t, x, level + 1, deleter, kernel, Child(p, i));
      }
    }
  }

  lemma ValuesConcat(vs: Visit, ws: Visit)
    ensures Values(vs + ws) == Values(vs) + Values(ws)
  {
  }

  lemma EntriesStep(b: nat, n: nat, mem: Mem, root: nat, at: Layout, p: seq<nat>, i: nat)
    requires Tree(b, n, mem, root, at) && p in at && i < b
    ensures Values(Entries(b, n, mem, at, p, i))
            == Values(EntriesHere(b, n, mem, at, p, i)) + Values(Entries(b, n, mem, at, p, i + 1))
  {
    ValuesConcat(EntriesHere(b, n, mem, at, p, i), Entries(b, n, mem, at, p, i + 1));
  }

  const EINVAL: int := 22

  /** radix_free: the deleter gets every live value, in ascending order of the keys, and the kernel frees every node
      once. The library frees none. */
  method Free(t: R.Radix, deleter: bool, kernel: bool) returns (r: int, deleted: seq<nat>, freed: seq<nat>)
    requires t.Valid()
    ensures t.root == 0 ==> r == -EINVAL && deleted == [] && freed == []
    ensures t.root != 0 ==> r == 0 && deleted == Called(deleter, Entries(t.base, t.levels, t.mem, t.at, [], 0))
    ensures t.root != 0 ==> NoDup(freed) && forall x :: x in freed <==> kernel && x in t.mem
  {
    if t.root == 0 {
      return -EINVAL, [], [];
    }
    r := 0;
    deleted, freed := FreeNode(t, t.root, 0, deleter, kernel, []);
    if kernel {
      forall x | x in t.mem
        ensures x in freed
      {
        assert x in t.at.Values;
        var q :| q in t.at && t.at[q] == x;
        assert [] <= q;
      }
    }
  }
}
