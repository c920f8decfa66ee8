/** Scanning the radix tree of the library from a key on, with the index arithmetic of its code. */
module RadixScan {
  import opened Common
  import opened RadixTree
  import opened RadixWalk
  import R = Radix

  const SIZE: nat := 512
  const LEVELS: nat := 8
  const U32: nat := 0x1_0000_0000
  const U64: nat := 0x1_0000_0000_0000_0000

  // ---------------------------------------------------------------------------------- the coded index

  function Shift(level: nat): nat
    requires level < LEVELS
  {
    (LEVELS - level - 1) * 9
  }

  /** The value of bit `k`. */
  function Weight(k: nat): (r: nat)
    ensures r > 0
  {
    if k == 0 then 1 else 2 * Weight(k - 1)
  }

  /** RADIX_NODE_MASK << shift, in an int and with the shift count modulo 32, and then widened to 64 bits. */
  function Mask(shift: nat): nat {
    var m := 511 * Weight(shift % 32) % U32;
    if m < U32 / 2 then m else m + (U64 - U32)
  }

  /** The bits of that mask are those from `Low` up to but not including `High`. */
  function Low(level: nat): nat
    requires level < LEVELS
  {
    Shift(level) % 32
  }

  function High(level: nat): nat
    requires level < LEVELS
  {
    if Low(level) >= 23 then 64 else Low(level) + 9
  }

  lemma {:induction false} WeightSum(a: nat, c: nat)
    ensures Weight(a + c) == Weight(a) * Weight(c)
  {
    if a > 0 {
      WeightSum(a - 1, c);
      assert Weight(a + c) == 2 * Weight(a - 1 + c);
    }
  }

  lemma LowerWeights()
    ensures Weight(0) == 1 && Weight(4) == 0x10 && Weight(9) == 0x200 && Weight(13) == 0x2000
    ensures Weight(18) == 0x4_0000 && Weight(22) == 0x40_0000 && Weight(27) == 0x800_0000 && Weight(31) == 0x8000_0000
  {
    WeightSum(4, 4);
    WeightSum(8, 1);
    WeightSum(9, 4);
    WeightSum(9, 9);
    WeightSum(18, 4);
    WeightSum(18, 9);
    WeightSum(27, 4);
  }

  lemma Weights()
    ensures Weight(0) == 1 && Weight(4) == 0x10 && Weight(9) == 0x200 && Weight(13) == 0x2000
    ensures Weight(18) == 0x4_0000 && Weight(22) == 0x40_0000 && Weight(27) == 0x800_0000 && Weight(31) == 0x8000_0000
    ensures Weight(36) == 0x10_0000_0000 && Weight(45) == 0x2000_0000_0000 && Weight(54) == 0x40_0000_0000_0000
    ensures Weight(63) == 0x8000_0000_0000_0000 && Weight(64) == U64
  {
    LowerWeights();
    WeightSum(27, 9);
    WeightSum(36, 9);
    WeightSum(45, 9);
    WeightSum(54, 9);
    WeightSum(63, 1);
  }

  lemma MaskBits(level: nat)
    requires level < LEVELS
    ensures Mask(Shift(level)) == Weight(High(level)) - Weight(Low(level))
  {
    Weights();
    LowHigh(level);
  }

  lemma LowHigh(level: nat)
    requires level < LEVELS
    ensures (level == 0 ==> Low(level) == 31 && High(level) == 64)
            && (level == 1 ==> Low(level) == 22 && High(level) == 31)
    ensures (level == 2 ==> Low(level) == 13 && High(level) == 22)
            && (level == 3 ==> Low(level) == 4 && High(level) == 13)
    ensures (level == 4 ==> Low(level) == 27 && High(level) == 64)
            && (level == 5 ==> Low(level) == 18 && High(level) == 27)
    ensures (level == 6 ==> Low(level) == 9 && High(level) == 18)
            && (level == 7 ==> Low(level) == 0 && High(level) == 9)
  {
  }

  /** The bits of `start` that the mask leaves. */
  function Masked(start: nat, low: nat, high: nat): nat {
    start % Weight(high) / Weight(low) * Weight(low)
  }

  function ShiftDown(x: nat, shift: nat): nat {
    Quotient(x, Weight(shift))
  }

  function Quotient(x: nat, y: nat): nat
    requires y > 0
  {
    x / y
  }

  /** The 32-bit int that a number becomes. */
  function ToInt(x: nat): int {
    var y := x % U32;
    if y < U32 / 2 then y else y - U32
  }

  /** start_i: the start, masked and shifted, as an int. */
  function StartIndex(start: nat, level: nat): int
    requires level < LEVELS
  {
    ToInt(ShiftDown(Masked(start, Low(level), High(level)), Shift(level)))
  }

  // --------------------------------------------------------------------------- where it is the right digit

  lemma IndexTop(start: nat)
    requires start < U64
    ensures StartIndex(start, 0) == start / 0x8000_0000_0000_0000
  {
    Weights();
    LowHigh(0);
    assert start / 0x8000_0000 * 0x8000_0000 / 0x8000_0000_0000_0000 == start / 0x8000_0000_0000_0000;
  }

  /** Three of the indices are always 0. */
  lemma IndexLost(start: nat, level: nat)
    requires 1 <= level <= 3
    ensures StartIndex(start, level) == 0
  {
    Weights();
    LowHigh(level);
    var low, high, shift := Weight(Low(level)), Weight(High(level)), Weight(Shift(level));
    assert high <= shift;
    Lost(start % high, low, high, shift);
  }

  lemma Lost(x: nat, low: nat, high: nat, shift: nat)
    requires x < high <= shift && low > 0
    ensures x / low * low / shift == 0
  {
    assert x / low * low <= x;
  }

  lemma IndexMiddle(start: nat)
    requires start < U64
    ensures StartIndex(start, 4) == ToInt(start / 0x800_0000)
  {
    Weights();
    LowHigh(4);
    assert start / 0x800_0000 * 0x800_0000 / 0x800_0000 == start / 0x800_0000;
  }

  lemma IndexLow(start: nat, level: nat)
    requires 5 <= level < 8
    ensures StartIndex(start, level) == start / Weight(Shift(level)) % SIZE
  {
    Weights();
    LowHigh(level);
    if level == 5 {
      Bits18(start);
    } else if level == 6 {
      Bits9(start);
    } else {
      assert start % 0x200 / 1 * 1 / 1 == start / 1 % 512;
    }
  }

  lemma Bits18(x: nat)
    ensures x % 0x800_0000 / 0x4_0000 * 0x4_0000 / 0x4_0000 == x / 0x4_0000 % 512
  {
    var y := x / 0x4_0000;
    assert x % 0x800_0000 / 0x4_0000 == y % 512;
  }

  lemma Bits9(x: nat)
    ensures x % 0x4_0000 / 0x200 * 0x200 / 0x200 == x / 0x200 % 512
  {
  }

  /** The digits of the start, one by one. */
  lemma DigitsOf(start: nat)
    ensures var d := Digits(SIZE, LEVELS, start);
            && d[7] == start % SIZE && d[6] == start / SIZE % SIZE && d[5] == start / SIZE / SIZE % SIZE
            && d[4] == start / SIZE / SIZE / SIZE % SIZE && d[3] == start / SIZE / SIZE / SIZE / SIZE % SIZE
            && d[2] == start / SIZE / SIZE / SIZE / SIZE / SIZE % SIZE
            && d[1] == start / SIZE / SIZE / SIZE / SIZE / SIZE / SIZE % SIZE
            && d[0] == start / SIZE / SIZE / SIZE / SIZE / SIZE / SIZE / SIZE % SIZE
  {
    assert Digits(SIZE, 0, start / SIZE / SIZE / SIZE / SIZE / SIZE / SIZE / SIZE / SIZE) == [];
    assert Digits(SIZE, 1, start / SIZE / SIZE / SIZE / SIZE / SIZE / SIZE / SIZE)
        == [start / SIZE / SIZE / SIZE / SIZE / SIZE / SIZE / SIZE % SIZE];
  }

  lemma Nested(x: nat)
    ensures x / SIZE / SIZE == x / 0x4_0000 && x / SIZE / SIZE / SIZE == x / 0x800_0000
    ensures x / SIZE / SIZE / SIZE / SIZE == x / 0x10_0000_0000
  {
  }

  /** The digits that get lost are 0 exactly if the start fits in 36 bits, apart from its top bit. */
  lemma LostZero(start: nat, q: nat)
    requires start < U64 && q == start / 0x10_0000_0000
    ensures q % SIZE == 0 && q / SIZE % SIZE == 0 && q / SIZE / SIZE % SIZE == 0 <==>
            start % 0x8000_0000_0000_0000 < 0x10_0000_0000
  {
    assert q / SIZE / SIZE % SIZE == 0 && q / SIZE % SIZE == 0 && q % SIZE == 0 <==> q % 0x800_0000 == 0;
    assert start % 0x8000_0000_0000_0000 == q % 0x800_0000 * 0x10_0000_0000 + start % 0x10_0000_0000;
  }

  lemma MiddleRight(start: nat)
    requires start < U64 && start % 0x8000_0000_0000_0000 < 0x10_0000_0000
    ensures ToInt(start / 0x800_0000) == start / 0x800_0000 % SIZE
  {
    var h, r := start / 0x8000_0000_0000_0000, start % 0x8000_0000_0000_0000;
    assert start / 0x800_0000 == h * 0x10_0000_0000 + r / 0x800_0000;
  }

  lemma TopRight(start: nat, q: nat)
    requires start < U64 && q == start / 0x10_0000_0000
    ensures q / SIZE / SIZE / SIZE % SIZE == start / 0x8000_0000_0000_0000
  {
    assert q / SIZE / SIZE / SIZE == q / 0x800_0000;
  }

  /** The scan begins at the digits of its start exactly if the start fits in 36 bits, apart from its top bit. */
  lemma IndexExact(start: nat)
    requires start < U64
    ensures (forall level: nat :: level < LEVELS ==>
               StartIndex(start, level) == Digits(SIZE, LEVELS, start)[level]) <==>
            start % 0x8000_0000_0000_0000 < 0x10_0000_0000
  {
    var d, q := Digits(SIZE, LEVELS, start), start / 0x10_0000_0000;
    DigitsOf(start);
    Nested(start);
    LostZero(start, q);
    LostIndices(start, d, q);
    if start % 0x8000_0000_0000_0000 < 0x10_0000_0000 {
      forall level: nat | level < LEVELS
        ensures StartIndex(start, level) == d[level]
      {
        IndexRight(start, level, d, q);
      }
    }
  }

  lemma LostIndices(start: nat, d: seq<nat>, q: nat)
    requires |d| == LEVELS && d[3] == q % SIZE && d[2] == q / SIZE % SIZE && d[1] == q / SIZE / SIZE % SIZE
    ensures (forall level: nat :: level < LEVELS ==> StartIndex(start, level) == d[level]) ==>
            q % SIZE == 0 && q / SIZE % SIZE == 0 && q / SIZE / SIZE % SIZE == 0
  {
    IndexLost(start, 1);
    IndexLost(start, 2);
    IndexLost(start, 3);
  }

  lemma IndexRight(start: nat, level: nat, d: seq<nat>, q: nat)
    requires start < U64 && start % 0x8000_0000_0000_0000 < 0x10_0000_0000 && q == start / 0x10_0000_0000
             && level < LEVELS && d == Digits(SIZE, LEVELS, start)
    ensures StartIndex(start, level) == d[level]
  {
    DigitsOf(start);
    Nested(start);
    LostZero(start, q);
    if level == 0 {
      IndexTop(start);
      TopRight(start, q);
    } else if level <= 3 {
      IndexLost(start, level);
    } else if level == 4 {
      IndexMiddle(start);
      MiddleRight(start);
    } else {
      IndexLow(start, level);
      LowWeights(level);
    }
  }

  lemma LowWeights(level: nat)
    requires 5 <= level < LEVELS
    ensures Weight(Shift(level)) == if level == 5 then 0x4_0000 else if level == 6 then 0x200 else 1
  {
    Weights();
  }

  /** The words at which the scan begins, level by level; a negative index is not one. */
  function Coded(start: nat): (s: seq<nat>)
    ensures |s| == LEVELS
  {
    seq(LEVELS, l requires 0 <= l < LEVELS => if StartIndex(start, l) < 0 then 0 else StartIndex(start, l))
  }

  lemma CodedZero()
    ensures forall l :: 0 <= l < LEVELS ==> StartIndex(0, l) == 0 && Coded(0)[l] == 0
  {
    ZeroDigits(SIZE, LEVELS);
    IndexExact(0);
  }

  lemma CodedDigits(start: nat)
    requires start < U64 && start % 0x8000_0000_0000_0000 < 0x10_0000_0000
    ensures Coded(start) == Digits(SIZE, LEVELS, start)
  {
    IndexExact(start);
  }

  /** No node is read before its first word: where the words of the start lead, no index is negative. */
  ghost predicate InBounds(at: Layout, p: seq<nat>, start: nat)
    requires |p| < LEVELS
    decreases LEVELS - |p|
  {
    p in at ==>
      StartIndex(start, |p|) >= 0
      && (|p| + 1 < LEVELS && StartIndex(start, |p|) < SIZE ==> InBounds(at, Child(p, StartIndex(start, |p|)), start))
  }

  lemma {:induction false} ZeroInBounds(at: Layout, p: seq<nat>)
    requires |p| < LEVELS
    ensures InBounds(at, p, 0)
    decreases LEVELS - |p|
  {
    CodedZero();
    if |p| + 1 < LEVELS {
      ZeroInBounds(at, Child(p, 0));
    }
  }

  lemma {:induction false} DigitsInBounds(at: Layout, p: seq<nat>, start: nat)
    requires |p| < LEVELS && start < U64 && start % 0x8000_0000_0000_0000 < 0x10_0000_0000
    ensures InBounds(at, p, start)
    decreases LEVELS - |p|
  {
    IndexExact(start);
    if |p| + 1 < LEVELS {
      DigitsInBounds(at, Child(p, StartIndex(start, |p|)), start);
    }
  }

  // -------------------------------------------------------------------------------------------- the scan

  /** Values up to and including the first for which the callback reports an error, and that error. */
  function UntilError(vs: seq<nat>, cb: nat -> int): seq<nat> {
    if vs == [] then [] else if cb(vs[0]) != 0 then [vs[0]] else [vs[0]] + UntilError(vs[1..], cb)
  }

  function FirstError(vs: seq<nat>, cb: nat -> int): int {
    if vs == [] then 0 else if cb(vs[0]) != 0 then cb(vs[0]) else FirstError(vs[1..], cb)
  }

  lemma {:induction false} ErrorsConcat(vs: seq<nat>, ws: seq<nat>, cb: nat -> int)
    ensures FirstError(vs + ws, cb) == if FirstError(vs, cb) != 0 then FirstError(vs, cb) else FirstError(ws, cb)
    ensures UntilError(vs + ws, cb) == if FirstError(vs, cb) != 0 then UntilError(vs, cb) else vs + UntilError(ws, cb)
    ensures FirstError(vs, cb) == 0 ==> UntilError(vs, cb) == vs
  {
    if vs == [] {
      assert vs + ws == ws;
    } else {
      var all, tail := vs + ws, vs[1..];
      assert all[0] == vs[0] && all[1..] == tail + ws && vs == [vs[0]] + tail;
      ErrorsConcat(tail, ws, cb);
      Assoc([vs[0]], tail, UntilError(ws, cb));
    }
  }

  /** The values that a scan from key `start` on meets below node `p`, and through its word `i`. */
  ghost function ValuesFrom(mem: Mem, at: Layout, p: seq<nat>, start: nat): seq<nat>
    requires |p| < LEVELS
  {
    Values(EntriesFrom(SIZE, LEVELS, mem, at, p, Coded(start)))
  }

  ghost function ValuesHere(mem: Mem, at: Layout, p: seq<nat>, i: nat, start: nat): seq<nat>
    requires |p| < LEVELS && i < SIZE && p in at && at[p] in mem && |mem[at[p]]| == SIZE
  {
    Values(HereFrom(SIZE, LEVELS, mem, at, p, i, Coded(start)))
  }

  /** What is left of a scan that began at word `first` and has come to word `i`. */
  ghost function Rest(mem: Mem, at: Layout, p: seq<nat>, start: nat, first: nat, i: nat): seq<nat>
    requires |p| < LEVELS && i <= SIZE
  {
    if i == first then ValuesFrom(mem, at, p, start) else Values(Entries(SIZE, LEVELS, mem, at, p, i))
  }

  /** One round more. */
  lemma ScanStep(mem: Mem, root: nat, at: Layout, p: seq<nat>, start: nat, first: nat, i: nat, cb: nat -> int,
                 visited: seq<nat>, here: seq<nat>, err: int, all: seq<nat>)
    requires Tree(SIZE, LEVELS, mem, root, at) && p in at && first == Coded(start)[|p|] <= i < SIZE
    requires visited + Rest(mem, at, p, start, first, i) == all && FirstError(visited, cb) == 0
    requires var more := ValuesHere(mem, at, p, i, if i == first then start else 0);
             err == FirstError(more, cb) && here == UntilError(more, cb)
    ensures err != 0 ==> err == FirstError(all, cb) && visited + here == UntilError(all, cb)
    ensures err == 0 ==>
              visited + here + Rest(mem, at, p, start, first, i + 1) == all && FirstError(visited + here, cb) == 0
  {
    var more := ValuesHere(mem, at, p, i, if i == first then start else 0);
    if i == first {
      FirstStep(mem, root, at, p, Coded(start));
    } else {
      LaterStep(mem, root, at, p, i);
    }
    Visited(visited, more, Values(Entries(SIZE, LEVELS, mem, at, p, i + 1)), all, cb);
  }

  lemma FirstStep(mem: Mem, root: nat, at: Layout, p: seq<nat>, s: seq<nat>)
    requires Tree(SIZE, LEVELS, mem, root, at) && p in at && |s| == LEVELS && s[|p|] < SIZE
    ensures Values(EntriesFrom(SIZE, LEVELS, mem, at, p, s))
            == Values(HereFrom(SIZE, LEVELS, mem, at, p, s[|p|], s))
               + Values(Entries(SIZE, LEVELS, mem, at, p, s[|p|] + 1))
  {
    ValuesConcat(HereFrom(SIZE, LEVELS, mem, at, p, s[|p|], s), Entries(SIZE, LEVELS, mem, at, p, s[|p|] + 1));
  }

  lemma LaterStep(mem: Mem, root: nat, at: Layout, p: seq<nat>, i: nat)
    requires Tree(SIZE, LEVELS, mem, root, at) && p in at && i < SIZE
    ensures Values(Entries(SIZE, LEVELS, mem, at, p, i))
            == ValuesHere(mem, at, p, i, 0) + Values(Entries(SIZE, LEVELS, mem, at, p, i + 1))
  {
    CodedZero();
    FromZeros(SIZE, LEVELS, mem, root, at, p, Coded(0));
    EntriesStep(SIZE, LEVELS, mem, root, at, p, i);
  }

  lemma {:induction false} ZeroDigits(b: nat, n: nat)
    requires b > 0
    ensures forall i :: 0 <= i < n ==> Digits(b, n, 0)[i] == 0
  {
    if n > 0 {
      ZeroDigits(b, n - 1);
    }
  }

  /** One more part of the walk. */
  lemma Visited(before: seq<nat>, here: seq<nat>, rest: seq<nat>, all: seq<nat>, cb: nat -> int)
    requires all == before + (here + rest) && FirstError(before, cb) == 0
    ensures FirstError(here, cb) != 0 ==>
              FirstError(all, cb) == FirstError(here, cb) && UntilError(all, cb) == before + UntilError(here, cb)
    ensures FirstError(here, cb) == 0 ==>
              FirstError(before + here, cb) == 0 && UntilError(here, cb) == here && all == before + here + rest
  {
    Assoc(before, here, rest);
    ErrorsConcat(before, here, cb);
    ErrorsConcat(before + here, rest, cb);
    ErrorsConcat(here, [], cb);
  }

  /** __radix_scan: the callback is called with `visited`, in order.  If an index is negative, memory before a node is
      read, and the walk ends here. */
  method ScanNode(t: R.Radix, node: nat, level: nat, start: nat, cb: nat -> int, ghost p: seq<nat>)
    returns (safe: bool, err: int, visited: seq<nat>)
    requires t.Valid() && t.base == SIZE && t.levels == LEVELS && p in t.at && level == |p| && node == t.at[p]
    ensures safe <==> InBounds(t.at, p, start)
    ensures var all := ValuesFrom(t.mem, t.at, p, start);
            safe ==> err == FirstError(all, cb) && visited == UntilError(all, cb)
    decreases t.levels - level, 1
  {
    ghost var all := ValuesFrom(t.mem, t.at, p, start);
    var first := StartIndex(start, level);
    safe, err, visited := first >= 0, 0, [];
    if first < 0 || first >= SIZE {
      return;
    }
    var from := start;
    for i := first to SIZE
      invariant safe && from == (if i == first then start else 0)
      invariant i > first ==> InBounds(t.at, p, start)
      invariant visited + Rest(t.mem, t.at, p, start, first, i) == all && FirstError(visited, cb) == 0
    {
      var here;
      safe, err, here := ScanWord(t, t.mem[node][i], level, from, cb, p, i);
      if !safe {
        return;
      }
      ScanStep(t.mem, t.root, t.at, p, start, first, i, cb, visited, here, err, all);
      visited := visited + here;
      if err != 0 {
        return;
      }
      from := 0;
    }
    err := 0;
    ErrorsConcat(visited, [], cb);
  }

  /** One round of the loops of __radix_scan. */
  method ScanWord(t: R.Radix, x: nat, level: nat, start: nat, cb: nat -> int, ghost p: seq<nat>, ghost i: nat)
    returns (safe: bool, err: int, here: seq<nat>)
    requires t.Valid() && t.base == SIZE && t.levels == LEVELS
    requires p in t.at && level == |p| && i < t.base && x == t.mem[t.at[p]][i]
    ensures safe <==> (level + 1 < LEVELS ==> InBounds(t.at, Child(p, i), start))
    ensures start == 0 ==> safe
    ensures var all := ValuesHere(t.mem, t.at, p, i, start);
            safe ==> err == FirstError(all, cb) && here == UntilError(all, cb)
    decreases t.levels - level, 0
  {
    safe, err, here := true, 0, [];
    if level == t.levels - 1 {
      if x != 0 {
        here := [x];
        err := cb(x);
      }
    } else {
      ZeroInBounds(t.at, Child(p, i));
      assert LinkOk(t.mem, t.at, p, i);
      if x != 0 {
        safe, err, here := ScanNode(t, x, level + 1, start, cb, Child(p, i));
      }
    }
  }

  /** radix_scan; it needs a root. */
  method Scan(t: R.Radix, start: nat, cb: nat -> int) returns (safe: bool, err: int, visited: seq<nat>)
    requires t.Valid() && t.base == SIZE && t.levels == LEVELS && t.root != 0
    ensures safe <==> InBounds(t.at, [], start)
    ensures var all := ValuesFrom(t.mem, t.at, [], start);
            safe ==> err == FirstError(all, cb) && visited == UntilError(all, cb)
  {
    safe, err, visited := ScanNode(t, t.root, 0, start, cb, []);
  }

  /** From a start that fits in 36 bits, apart from its top bit, the scan is safe and meets the live values of exactly
      the keys from the start on, in ascending order. */
  lemma ScanExact(mem: Mem, root: nat, at: Layout, start: nat)
    requires Tree(SIZE, LEVELS, mem, root, at) && root != 0
    requires start < U64 && start % 0x8000_0000_0000_0000 < 0x10_0000_0000
    ensures InBounds(at, [], start)
    ensures var vs := EntriesFrom(SIZE, LEVELS, mem, at, [], Coded(start));
            && ValuesFrom(mem, at, [], start) == Values(vs) && KeysAscend(SIZE, vs)
            && (forall k :: 0 <= k < |vs| ==>
                  vs[k].1 == Lookup(LEVELS, mem, at, vs[k].0) != 0 && KeyOf(SIZE, vs[k].0) >= start)
            && (forall d ::
                  |d| == LEVELS && IsPath(SIZE, d) && Lookup(LEVELS, mem, at, d) != 0 && KeyOf(SIZE, d) >= start
                  ==> Meets(vs, d))
  {
    DigitsInBounds(at, [], start);
    CodedDigits(start);
    KeyRange(start);
    ScanMeetsFrom(SIZE, LEVELS, mem, root, at, start);
  }

  /** A 64-bit number is a key. */
  lemma KeyRange(start: nat)
    requires start < U64
    ensures start < Pow(SIZE, LEVELS)
  {
    var p := Pow(SIZE, 4);
    assert p == 0x10_0000_0000;
    assert Pow(SIZE, 8) == SIZE * (SIZE * (SIZE * (SIZE * p)));
  }

  // ---------------------------------------------------------------------------------- where it goes wrong

  /** Beyond that a scan can meet keys before its start: from 2^36 + 1 it meets 2^36, if that is live. */
  lemma MeetsBefore(mem: Mem, root: nat, at: Layout, d: seq<nat>)
    requires Tree(SIZE, LEVELS, mem, root, at) && root != 0 && d == [0, 0, 0, 1, 0, 0, 0, 0]
             && Lookup(LEVELS, mem, at, d) != 0
    ensures KeyOf(SIZE, d) == 0x10_0000_0000
    ensures Meets(EntriesFrom(SIZE, LEVELS, mem, at, [], Coded(0x10_0000_0001)), d)
  {
    var s := Coded(0x10_0000_0001);
    KeyOfWitness(d);
    WitnessIndices(0x10_0000_0001);
    WitnessFrom(mem, root, at, [], s, d);
  }

  lemma KeyOfWitness(d: seq<nat>)
    requires d == [0, 0, 0, 1, 0, 0, 0, 0]
    ensures KeyOf(SIZE, d) == 0x10_0000_0000
  {
    DigitsKeyStep(d, 8);
    DigitsKeyStep(d, 7);
    DigitsKeyStep(d, 6);
    DigitsKeyStep(d, 5);
    DigitsKeyStep(d, 4);
    DigitsKeyStep(d, 3);
    DigitsKeyStep(d, 2);
    DigitsKeyStep(d, 1);
  }

  lemma DigitsKeyStep(d: seq<nat>, k: nat)
    requires 0 < k <= |d|
    ensures KeyOf(SIZE, d[..k]) == KeyOf(SIZE, d[..k - 1]) * SIZE + d[k - 1] && d[..|d|] == d
  {
    assert d[..k][..k - 1] == d[..k - 1];
  }

  lemma WitnessIndices(start: nat)
    requires start == 0x10_0000_0001
    ensures Coded(start)[0] == Coded(start)[1] == Coded(start)[2] == Coded(start)[3] == 0
  {
    IndexTop(start);
    IndexLost(start, 1);
    IndexLost(start, 2);
    IndexLost(start, 3);
  }

  lemma {:induction false} WitnessFrom(mem: Mem, root: nat, at: Layout, p: seq<nat>, s: seq<nat>, d: seq<nat>)
    requires Tree(SIZE, LEVELS, mem, root, at) && p in at && p <= d && |p| <= 3
    requires |s| == LEVELS && s[0] == s[1] == s[2] == s[3] == 0 && d == [0, 0, 0, 1, 0, 0, 0, 0]
             && Lookup(LEVELS, mem, at, d) != 0
    ensures Meets(EntriesFrom(SIZE, LEVELS, mem, at, p, s), d)
    decreases 3 - |p|
  {
    var c := Child(p, 0);
    if |p| == 3 {
      EntriesComplete(SIZE, LEVELS, mem, root, at, p, 1, d);
    } else {
      assert c == d[..|p| + 1];
      PathThere(mem, root, at, c, d);
      WitnessFrom(mem, root, at, c, s, d);
    }
    MeetsConcat(HereFrom(SIZE, LEVELS, mem, at, p, 0, s), Entries(SIZE, LEVELS, mem, at, p, 1), d);
  }

  /** The nodes on the way to a live value are there. */
  lemma PathThere(mem: Mem, root: nat, at: Layout, c: seq<nat>, d: seq<nat>)
    requires Tree(SIZE, LEVELS, mem, root, at) && c <= d && |c| < LEVELS == |d| && Lookup(LEVELS, mem, at, d) != 0
    ensures c in at
  {
    assert c <= Parent(d);
    AboveThere(mem, root, at, c, Parent(d));
  }

  lemma {:induction false} AboveThere(mem: Mem, root: nat, at: Layout, c: seq<nat>, q: seq<nat>)
    requires Tree(SIZE, LEVELS, mem, root, at) && q in at && c <= q
    ensures c in at
    decreases |q|
  {
    if c != q {
      AboveThere(mem, root, at, c, Parent(q));
    }
  }
}
