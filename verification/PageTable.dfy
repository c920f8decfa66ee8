/** Mapping, unmapping, querying and freeing a page table, updating the table pages in place. */
module PageTable {
  import opened Common
  import opened PageTableState
  import opened PageTableSteps
  import opened PageTableNeeds

  // --------------------------------------------------------------------------------- leaf descriptors

  /** The descriptor after the leaf writes of the mappers: only the address bits of the block number
      are replaced, the lower ones keep what was there. */
  function PutLeaf(e: Pte, level: nat, pa: nat, flags: Flags): Pte {
    var addr :=
      if level <= 1 then (pa / SIZE_1G) % 0x4_0000 * 0x4_0000 + e.addr % 0x4_0000
      else if level == 2 then (pa / SIZE_2M) % 0x800_0000 * 0x200 + e.addr % 0x200
      else (pa / SIZE_4K) % FRAME_LIMIT;
    Pte(true, level == 3, addr, AttrsFor(flags))
  }

  lemma PutLeafGives(e: Pte, level: nat, pa: nat, flags: Flags, cva: nat, v: nat)
    requires 1 <= level <= 3 && pa < PA_LIMIT && Aligned(pa, level) && Aligned(cva, level)
    requires SameEntry(v, cva, level)
    ensures LeafOf(PutLeaf(e, level, pa, flags), level, v) == Shift(Some(Leaf(pa, AttrsFor(flags))), cva, v)
    ensures Grants(PutLeaf(e, level, pa, flags).attrs, flags)
  {
    AttrsGrant(flags);
    AlignedParts(pa, level);
    if level == 1 {
      HighPart(pa / SIZE_1G, e.addr % 0x4_0000);
    } else if level == 2 {
      HighPart(pa / SIZE_2M, e.addr % 0x200);
    }
  }

  /** The block number of a 48-bit address fits its field, and loses nothing when the address is aligned. */
  lemma AlignedParts(pa: nat, level: nat)
    requires pa < PA_LIMIT && 1 <= level <= 3 && Aligned(pa, level)
    ensures level == 1 ==> (pa / SIZE_1G) % 0x4_0000 == pa / SIZE_1G && (pa / SIZE_1G) * SIZE_1G == pa
    ensures level == 2 ==> (pa / SIZE_2M) % 0x800_0000 == pa / SIZE_2M && (pa / SIZE_2M) * SIZE_2M == pa
    ensures level == 3 ==> (pa / SIZE_4K) % FRAME_LIMIT == pa / SIZE_4K && (pa / SIZE_4K) * SIZE_4K == pa
  {
    if level == 1 {
      assert pa / SIZE_1G < 0x4_0000;
    } else if level == 2 {
      assert pa / SIZE_2M < 0x800_0000;
    } else {
      assert pa / SIZE_4K < FRAME_LIMIT;
    }
  }

  lemma HighPart(q: nat, r: nat)
    ensures r < 0x4_0000 ==> (q * 0x4_0000 + r) / 0x4_0000 == q
    ensures r < 0x200 ==> (q * 0x200 + r) / 0x200 == q
  {
  }

  // -------------------------------------------------------------------------------------- ranges

  lemma InEntry(v: nat, cva: nat, level: nat)
    requires level <= 3 && Aligned(cva, level)
    ensures SameEntry(v, cva, level) <==> cva <= v < cva + EntrySize(level)
  {
  }

  /** No block descriptor is in the way of an entry at level `depth` anywhere in [lo, hi). */
  ghost predicate Clear(mem: Mem, at: Layout, lo: nat, hi: nat, depth: nat) {
    forall v: nat :: lo <= v < hi ==> PathClear(mem, at, v, depth)
  }

  /** The tables of `level` for all of [lo, hi) are there. */
  ghost predicate Tabled(at: Layout, lo: nat, hi: nat, level: nat) {
    forall v: nat :: lo <= v < hi ==> NodeOf(v, level) in at
  }

  /** None of the tables of `level` for [lo, hi) is there. */
  ghost predicate Untabled(at: Layout, lo: nat, hi: nat, level: nat) {
    forall v: nat :: lo <= v < hi ==> NodeOf(v, level) !in at
  }

  /** Of all addresses, exactly those in [va, stop) changed their translation: `va` translates to `r` now, the others
      to what lies as far behind it, or to nothing if `r` is none. */
  ghost predicate Remapped(m0: Mem, m1: Mem, root: nat, va: nat, stop: nat, r: Option<Leaf>) {
    forall v: nat :: v < VA_LIMIT ==>
          Walk(m1, root, 0, v) == if va <= v < stop then Shift(r, va, v) else Walk(m0, root, 0, v)
  }

  /** Every address of [va, stop) is translated to what lies as far behind `pa`, and with what the flags grant. */
  ghost predicate MapsTo(mem: Mem, root: nat, va: nat, stop: nat, pa: nat, flags: Flags) {
    forall v: nat :: va <= v < stop ==>
        var r := Walk(mem, root, 0, v);
        r.Some? && r.value.pa == pa + (v - va) && Grants(r.value.attrs, flags)
  }

  lemma RemappedMaps(m0: Mem, m1: Mem, root: nat, va: nat, stop: nat, pa: nat, flags: Flags)
    requires Remapped(m0, m1, root, va, stop, Some(Leaf(pa, AttrsFor(flags)))) && stop <= VA_LIMIT
    ensures MapsTo(m1, root, va, stop, pa, flags)
  {
    AttrsGrant(flags);
  }

  /** Nothing is mapped in [lo, hi). */
  ghost predicate Empty(mem: Mem, root: nat, lo: nat, hi: nat) {
    forall v: nat :: lo <= v < hi ==> Walk(mem, root, 0, v) == None
  }

  /** Two tables translate every address alike. */
  ghost predicate Agree(m: Mem, root: nat, m': Mem, root': nat) {
    forall v: nat :: v < VA_LIMIT ==> Walk(m, root, 0, v) == Walk(m', root', 0, v)
  }

  lemma AgreeAfter(m0: Mem, m1: Mem, root: nat, u0: Mem, u1: Mem, root': nat, va: nat, stop: nat, r: Option<Leaf>)
    requires Agree(m0, root, u0, root') && Remapped(m0, m1, root, va, stop, r) && Remapped(u0, u1, root', va, stop, r)
    ensures Agree(m1, root, u1, root')
  {
  }

  lemma EmptyPart(mem: Mem, root: nat, lo: nat, hi: nat)
    requires Empty(mem, root, 0, VA_LIMIT) && hi <= VA_LIMIT
    ensures Empty(mem, root, lo, hi)
  {
  }

  lemma StillEmpty(m0: Mem, m1: Mem, root: nat)
    requires Empty(m0, root, 0, VA_LIMIT) && Agree(m1, root, m0, root)
    ensures Empty(m1, root, 0, VA_LIMIT)
  {
  }

  /** Taking back what was mapped where nothing was. */
  lemma Undone(m0: Mem, m1: Mem, m2: Mem, root: nat, va: nat, stop: nat, r: Option<Leaf>)
    requires Empty(m0, root, va, stop) && Remapped(m0, m1, root, va, stop, r) && Remapped(m1, m2, root, va, stop, None)
    ensures Agree(m2, root, m0, root)
  {
  }

  ghost predicate Shallow(at: Layout) {
    forall n :: n in at ==> n.level <= 3
  }

  lemma TreeShallow(mem: Mem, root: nat, at: Layout)
    requires Tree(mem, root, at)
    ensures Shallow(at)
  {
  }

  /** How far a loop over entries of `level` has come: [va, stop) is set, what lies outside it is
      kept, the written entries lead to no table, and a table page was lost exactly if one of them did. */
  ghost predicate Progress(m0: Mem, a0: Layout, m1: Mem, a1: Layout, root: nat, va: nat, stop: nat, level: nat,
                           r: Option<Leaf>) {
    && (forall v: nat :: v < VA_LIMIT ==>
          if va <= v < stop then Set(m1, a1, root, level, va, r, v) else Kept(m0, a0, m1, a1, root, level, v))
    && (Tight(m1, a1) <==> Tight(m0, a0) && Untabled(a0, va, stop, level + 1))
    && (level < 3 ==> Untabled(a1, va, stop, level + 1))
  }

  lemma ProgressZero(m: Mem, a: Layout, root: nat, va: nat, level: nat, r: Option<Leaf>)
    ensures Progress(m, a, m, a, root, va, va, level, r)
  {
    forall v: nat
      ensures Kept(m, a, m, a, root, level, v)
    {
    }
  }

  lemma ProgressStep(m0: Mem, a0: Layout, m1: Mem, a1: Layout, m2: Mem, a2: Layout, root: nat, va: nat, cva: nat,
                     stop: nat, level: nat, r: Option<Leaf>, q: Option<Leaf>)
    requires Progress(m0, a0, m1, a1, root, va, cva, level, r) && EntrySet(m1, a1, m2, a2, root, level, cva, q)
    requires level <= 3 && Aligned(cva, level) && va <= cva && stop == cva + EntrySize(level) <= VA_LIMIT
             && q == Shift(r, va, cva)
    requires Shallow(a0) && Shallow(a1)
    ensures Progress(m0, a0, m2, a2, root, va, stop, level, r)
  {
    forall v: nat | v < VA_LIMIT
      ensures if va <= v < stop then Set(m2, a2, root, level, va, r, v) else Kept(m0, a0, m2, a2, root, level, v)
    {
      ProgressAt(m0, a0, m1, a1, m2, a2, root, va, cva, stop, level, r, q, v);
    }
    assert Kept(m0, a0, m1, a1, root, level, cva);
    ProgressTight(a0, a1, va, cva, stop, level);
    if level < 3 {
      ProgressUntabled(m1, a1, m2, a2, root, va, cva, stop, level, q);
    }
  }

  lemma ProgressUntabled(m1: Mem, a1: Layout, m2: Mem, a2: Layout, root: nat, va: nat, cva: nat, stop: nat, level: nat,
                         q: Option<Leaf>)
    requires Untabled(a1, va, cva, level + 1) && EntrySet(m1, a1, m2, a2, root, level, cva, q)
    requires level < 3 && Aligned(cva, level) && va <= cva && stop == cva + EntrySize(level) <= VA_LIMIT
    ensures Untabled(a2, va, stop, level + 1)
  {
    var l := level + 1;
    forall v: nat | va <= v < stop
      ensures NodeOf(v, l) !in a2
    {
      InEntry(v, cva, level);
      if v < cva {
        assert Kept(m1, a1, m2, a2, root, level, v);
      }
    }
  }

  lemma ProgressAt(m0: Mem, a0: Layout, m1: Mem, a1: Layout, m2: Mem, a2: Layout, root: nat, va: nat, cva: nat,
                   stop: nat, level: nat, r: Option<Leaf>, q: Option<Leaf>, v: nat)
    requires Progress(m0, a0, m1, a1, root, va, cva, level, r) && EntrySet(m1, a1, m2, a2, root, level, cva, q)
    requires level <= 3 && Aligned(cva, level) && va <= cva && stop == cva + EntrySize(level) <= VA_LIMIT
             && q == Shift(r, va, cva)
    requires v < VA_LIMIT
    ensures if va <= v < stop then Set(m2, a2, root, level, va, r, v) else Kept(m0, a0, m2, a2, root, level, v)
  {
    InEntry(v, cva, level);
    if SameEntry(v, cva, level) {
      assert Set(m2, a2, root, level, cva, q, v);
    } else {
      assert Kept(m1, a1, m2, a2, root, level, v);
      if va <= v < cva {
        assert Set(m1, a1, root, level, va, r, v);
      } else {
        assert Kept(m0, a0, m1, a1, root, level, v);
        KeptTrans(m0, a0, m1, a1, m2, a2, root, level, level, level, v);
      }
    }
  }

  lemma ProgressTight(a0: Layout, a1: Layout, va: nat, cva: nat, stop: nat, level: nat)
    requires level <= 3 && Aligned(cva, level) && va <= cva < VA_LIMIT && stop == cva + EntrySize(level) && Shallow(a0)
             && Shallow(a1)
    requires level < 3 ==> (NodeOf(cva, level + 1) in a1 <==> NodeOf(cva, level + 1) in a0)
    ensures NodeOf(cva, level + 1) in a1 <==> NodeOf(cva, level + 1) in a0
    ensures Untabled(a0, va, stop, level + 1) <==> Untabled(a0, va, cva, level + 1) && NodeOf(cva, level + 1) !in a0
  {
    var l := level + 1;
    forall v: nat | cva <= v < stop
      ensures NodeOf(v, l) == NodeOf(cva, l)
    {
      InEntry(v, cva, level);
    }
  }

  /** Where a range of whole pages ends. */
  function End(va: nat, len: nat): nat {
    va + RoundUp(len)
  }

  /** What `n` entries of `level` cover. */
  function Bytes(n: nat, level: nat): nat {
    if level == 1 then n * SIZE_1G else if level == 2 then n * SIZE_2M else n * SIZE_4K
  }

  lemma BytesStep(i: nat, n: nat, level: nat, va: nat, pa: nat)
    requires 1 <= level <= 3 && i < n && Aligned(va, level) && Aligned(pa, level)
    ensures Bytes(i + 1, level) == Bytes(i, level) + EntrySize(level) <= Bytes(n, level)
    ensures Aligned(va + Bytes(i, level), level) && Aligned(pa + Bytes(i, level), level)
  {
  }

  /** Where `n` rounds are after `i` of them. */
  predicate RoundFits(level: nat, va: nat, pa: nat, i: nat, n: nat, stop: nat, cva: nat, cpa: nat) {
    && 1 <= level <= 3 && i <= n && (n > 0 ==> Aligned(va, level) && Aligned(pa, level))
    && stop == va + Bytes(n, level) <= VA_LIMIT && pa + Bytes(n, level) <= PA_LIMIT
    && cva == va + Bytes(i, level) && cpa == pa + Bytes(i, level)
  }

  lemma RoundNext(level: nat, va: nat, pa: nat, i: nat, n: nat, stop: nat, cva: nat, cpa: nat, next: nat, nextpa: nat)
    requires RoundFits(level, va, pa, i, n, stop, cva, cpa) && i < n
    requires next == cva + EntrySize(level) && nextpa == cpa + EntrySize(level)
    ensures RoundFits(level, va, pa, i + 1, n, stop, next, nextpa)
  {
    BytesStep(i, n, level, va, pa);
  }

  lemma RoundReady(m0: Mem, a0: Layout, m1: Mem, a1: Layout, root: nat, level: nat, va: nat, pa: nat, i: nat, n: nat,
                   stop: nat, cva: nat, cpa: nat, r: Option<Leaf>)
    requires Progress(m0, a0, m1, a1, root, va, cva, level, r) && RoundFits(level, va, pa, i, n, stop, cva, cpa)
             && i < n
    ensures cva < VA_LIMIT && cpa < PA_LIMIT && Aligned(cva, level) && Aligned(cpa, level)
            && va <= cva && cva + EntrySize(level) <= stop
    ensures Clear(m0, a0, va, stop, level) ==> PathClear(m1, a1, cva, level)
    ensures Tabled(a0, va, stop, level) ==> NodeOf(cva, level) in a1
  {
    BytesStep(i, n, level, va, pa);
    assert Kept(m0, a0, m1, a1, root, level, cva);
    assert Clear(m0, a0, va, stop, level) ==> PathClear(m0, a0, cva, level);
    assert Tabled(a0, va, stop, level) ==> NodeOf(cva, level) in a0;
  }

  lemma ProgressRound(m0: Mem, a0: Layout, m1: Mem, a1: Layout, m2: Mem, a2: Layout, root: nat, level: nat, va: nat,
                      pa: nat, i: nat, n: nat, stop: nat, cva: nat, cpa: nat, next: nat,
                      r: Option<Leaf>, q: Option<Leaf>)
    requires Progress(m0, a0, m1, a1, root, va, cva, level, r) && EntrySet(m1, a1, m2, a2, root, level, cva, q)
    requires RoundFits(level, va, pa, i, n, stop, cva, cpa) && i < n && next == cva + EntrySize(level)
    requires (r.None? && q.None?) || (r.Some? && r.value.pa == pa && q == Some(Leaf(cpa, r.value.attrs)))
    requires Shallow(a0) && Shallow(a1)
    ensures Progress(m0, a0, m2, a2, root, va, next, level, r)
  {
    BytesStep(i, n, level, va, va);
    ProgressStep(m0, a0, m1, a1, m2, a2, root, va, cva, next, level, r, q);
  }

  /** The bytes that the huge mapper covers with 1G entries, and with 1G and 2M entries. */
  function Giant(len: nat): nat {
    Bytes(len / SIZE_1G, 1)
  }

  function Huge(len: nat): nat {
    Giant(len) + Bytes(len % SIZE_1G / SIZE_2M, 2)
  }

  function GiantEnd(va: nat, len: nat): nat {
    va + Giant(len)
  }

  function HugeEnd(va: nat, len: nat): nat {
    va + Huge(len)
  }

  predicate HugeAligned(va: nat, pa: nat, len: nat) {
    && va % SIZE_4K == 0 && pa % SIZE_4K == 0
    && (len >= SIZE_2M ==> va % SIZE_2M == 0 && pa % SIZE_2M == 0)
    && (len >= SIZE_1G ==> va % SIZE_1G == 0 && pa % SIZE_1G == 0)
  }

  predicate PhasesAligned(va: nat, pa: nat, n1: nat, n2: nat, g: nat, h: nat, gpa: nat, hpa: nat) {
    && (n1 > 0 ==> Aligned(va, 1) && Aligned(pa, 1))
    && (n2 > 0 ==> Aligned(g, 2) && Aligned(gpa, 2))
    && (n1 > 0 ==> Aligned(g, 1)) && (n2 > 0 ==> Aligned(h, 2))
    && Aligned(h, 3) && Aligned(hpa, 3)
  }

  lemma HugeAlignment(va: nat, pa: nat, len: nat)
    requires HugeAligned(va, pa, len)
    ensures PhasesAligned(va, pa, len / SIZE_1G, len % SIZE_1G / SIZE_2M, va + Giant(len), va + Huge(len),
                          pa + Giant(len), pa + Huge(len))
  {
    StillAligned(va, len / SIZE_1G, len % SIZE_1G / SIZE_2M);
    StillAligned(pa, len / SIZE_1G, len % SIZE_1G / SIZE_2M);
  }

  /** Whole 1G and 2M blocks do not change the alignment to smaller blocks. */
  lemma StillAligned(x: nat, n1: nat, n2: nat)
    ensures x % SIZE_1G == 0 ==> Aligned(x + Bytes(n1, 1), 1)
    ensures x % SIZE_2M == 0 ==> Aligned(x + Bytes(n1, 1), 2) && Aligned(x + Bytes(n1, 1) + Bytes(n2, 2), 2)
    ensures x % SIZE_4K == 0 ==> Aligned(x + Bytes(n1, 1) + Bytes(n2, 2), 3)
  {
    AddGiants(x, n1);
    AddHuges(x, n1 * 512);
    AddHuges(x, n1 * 512 + n2);
    AddPages(x, n1 * 0x4_0000 + n2 * 512);
  }

  lemma AddGiants(x: nat, k: nat)
    ensures (x + k * SIZE_1G) % SIZE_1G == x % SIZE_1G
  {
  }

  lemma AddHuges(x: nat, k: nat)
    ensures (x + k * SIZE_2M) % SIZE_2M == x % SIZE_2M
  {
  }

  lemma AddPages(x: nat, k: nat)
    ensures (x + k * SIZE_4K) % SIZE_4K == x % SIZE_4K
  {
  }

  /** Where the phases begin and end, and that they fit the address spaces. */
  predicate PhasesFit(va: nat, pa: nat, n1: nat, n2: nat, tail: nat, g: nat, h: nat, end: nat, gpa: nat, hpa: nat) {
    && g == va + Bytes(n1, 1) && h == g + Bytes(n2, 2) && end == h + RoundUp(tail) <= VA_LIMIT
    && gpa == pa + Bytes(n1, 1) && hpa == gpa + Bytes(n2, 2) && hpa + RoundUp(tail) <= PA_LIMIT
    && PhasesAligned(va, pa, n1, n2, g, h, gpa, hpa)
  }

  lemma HugeFits(va: nat, pa: nat, len: nat, n1: nat, n2: nat, tail: nat, g: nat, h: nat, end: nat, gpa: nat, hpa: nat)
    requires HugeAligned(va, pa, len) && end == va + RoundUp(len) <= VA_LIMIT && pa + RoundUp(len) <= PA_LIMIT
    requires n1 == len / SIZE_1G && n2 == len % SIZE_1G / SIZE_2M && tail == len % SIZE_1G % SIZE_2M
    requires g == va + Giant(len) && h == va + Huge(len) && gpa == pa + Giant(len) && hpa == pa + Huge(len)
    ensures PhasesFit(va, pa, n1, n2, tail, g, h, end, gpa, hpa) && va <= g <= h <= end
  {
    HugeSizes(len);
    HugeAlignment(va, pa, len);
  }

  lemma HugeSizes(len: nat)
    ensures RoundUp(len) == Huge(len) + RoundUp(len % SIZE_1G % SIZE_2M)
    ensures Giant(len) <= Huge(len) <= RoundUp(len)
  {
    var a, b, c := len / SIZE_1G, len % SIZE_1G / SIZE_2M, len % SIZE_1G % SIZE_2M;
    assert len == a * SIZE_1G + b * SIZE_2M + c;
    var p := (c + SIZE_4K - 1) / SIZE_4K;
    assert len + SIZE_4K - 1 == (a * 0x4_0000 + b * 0x200) * SIZE_4K + (c + SIZE_4K - 1);
    WholePages(a * 0x4_0000 + b * 0x200, c + SIZE_4K - 1);
  }

  lemma WholePages(q: nat, r: nat)
    ensures (q * SIZE_4K + r) / SIZE_4K == q + r / SIZE_4K
  {
  }

  /** The level of the entry that the huge mapper uses for an address, given where its phases end. */
  function LevelFor(g: nat, h: nat, v: nat): nat {
    if v < g then 1 else if v < h then 2 else 3
  }

  /** The tables that an unmapping in the same phases needs to find. */
  ghost predicate HugeTabled(at: Layout, va: nat, g: nat, h: nat, end: nat) {
    Tabled(at, va, g, 1) && Tabled(at, g, h, 2) && Tabled(at, h, end, 3)
  }

  /** The whole range [va, end) is set, everything else is kept, and table pages were lost exactly if
      a 1G entry (up to g) had a table below it or a 2M entry (from g to h) had one. */
  ghost predicate HugeProgress(m0: Mem, a0: Layout, m1: Mem, a1: Layout, root: nat, va: nat, g: nat, h: nat, end: nat,
                               r: Option<Leaf>) {
    && (forall v: nat :: v < VA_LIMIT ==>
          if va <= v < end then Set(m1, a1, root, LevelFor(g, h, v), va, r, v) else Kept(m0, a0, m1, a1, root, 3, v))
    && (Tight(m1, a1) <==> Tight(m0, a0) && Untabled(a0, va, g, 2) && Untabled(a0, g, h, 3))
  }

  /** The three phases of the huge mapper (or unmapper) put together. */
  lemma HugePhases(m0: Mem, a0: Layout, m1: Mem, a1: Layout, m2: Mem, a2: Layout, m3: Mem, a3: Layout, root: nat,
                   va: nat, g: nat, h: nat, end: nat, r: Option<Leaf>, r1: Option<Leaf>, r2: Option<Leaf>)
    requires va <= g <= h <= end <= VA_LIMIT && Shallow(a2) && r1 == Shift(r, va, g) && r2 == Shift(r, va, h)
    requires Progress(m0, a0, m1, a1, root, va, g, 1, r) && Progress(m1, a1, m2, a2, root, g, h, 2, r1)
    requires Progress(m2, a2, m3, a3, root, h, end, 3, r2)
    ensures HugeProgress(m0, a0, m3, a3, root, va, g, h, end, r)
  {
    forall v: nat | v < VA_LIMIT
      ensures if va <= v < end then Set(m3, a3, root, LevelFor(g, h, v), va, r, v) else Kept(m0, a0, m3, a3, root, 3, v)
    {
      HugeAt(m0, a0, m1, a1, m2, a2, m3, a3, root, va, g, h, end, r, r1, r2, v);
    }
    forall v: nat | g <= v < h
      ensures NodeOf(v, 3) in a1 <==> NodeOf(v, 3) in a0
    {
      assert Kept(m0, a0, m1, a1, root, 1, v);
    }
  }

  lemma PhasesMapped(m0: Mem, a0: Layout, m1: Mem, a1: Layout, m2: Mem, a2: Layout, m3: Mem, a3: Layout, root: nat,
                     va: nat, pa: nat, n1: nat, n2: nat, tail: nat, g: nat, h: nat, end: nat, gpa: nat, hpa: nat,
                     attrs: Attrs)
    requires PhasesFit(va, pa, n1, n2, tail, g, h, end, gpa, hpa) && Shallow(a2)
    requires Progress(m0, a0, m1, a1, root, va, g, 1, Some(Leaf(pa, attrs)))
    requires Progress(m1, a1, m2, a2, root, g, h, 2, Some(Leaf(gpa, attrs)))
    requires Progress(m2, a2, m3, a3, root, h, end, 3, Some(Leaf(hpa, attrs)))
    ensures HugeProgress(m0, a0, m3, a3, root, va, g, h, end, Some(Leaf(pa, attrs)))
  {
    var r, r1, r2 := Some(Leaf(pa, attrs)), Some(Leaf(gpa, attrs)), Some(Leaf(hpa, attrs));
    PhaseShifts(va, pa, n1, n2, tail, g, h, end, gpa, hpa, attrs);
    HugePhases(m0, a0, m1, a1, m2, a2, m3, a3, root, va, g, h, end, r, r1, r2);
  }

  lemma PhaseShifts(va: nat, pa: nat, n1: nat, n2: nat, tail: nat, g: nat, h: nat, end: nat, gpa: nat, hpa: nat,
                    attrs: Attrs)
    requires PhasesFit(va, pa, n1, n2, tail, g, h, end, gpa, hpa)
    ensures va <= g <= h <= end <= VA_LIMIT
    ensures Some(Leaf(gpa, attrs)) == Shift(Some(Leaf(pa, attrs)), va, g)
            && Some(Leaf(hpa, attrs)) == Shift(Some(Leaf(pa, attrs)), va, h)
  {
  }

  lemma HugeAt(m0: Mem, a0: Layout, m1: Mem, a1: Layout, m2: Mem, a2: Layout, m3: Mem, a3: Layout, root: nat,
               va: nat, g: nat, h: nat, end: nat, r: Option<Leaf>, r1: Option<Leaf>, r2: Option<Leaf>, v: nat)
    requires va <= g <= h <= end <= VA_LIMIT && v < VA_LIMIT && r1 == Shift(r, va, g) && r2 == Shift(r, va, h)
    requires Progress(m0, a0, m1, a1, root, va, g, 1, r) && Progress(m1, a1, m2, a2, root, g, h, 2, r1)
    requires Progress(m2, a2, m3, a3, root, h, end, 3, r2)
    ensures if va <= v < end then Set(m3, a3, root, LevelFor(g, h, v), va, r, v) else Kept(m0, a0, m3, a3, root, 3, v)
  {
    if va <= v < g {
      assert Set(m1, a1, root, 1, va, r, v) && Kept(m1, a1, m2, a2, root, 2, v) && Kept(m2, a2, m3, a3, root, 3, v);
    } else if g <= v < h {
      assert Set(m2, a2, root, 2, g, r1, v) && Kept(m2, a2, m3, a3, root, 3, v);
    } else if h <= v < end {
      assert Set(m3, a3, root, 3, h, r2, v);
    } else {
      assert Kept(m0, a0, m1, a1, root, 1, v) && Kept(m1, a1, m2, a2, root, 2, v) && Kept(m2, a2, m3, a3, root, 3, v);
      KeptTrans(m0, a0, m1, a1, m2, a2, root, 1, 2, 3, v);
      KeptTrans(m0, a0, m2, a2, m3, a3, root, 3, 3, 3, v);
    }
  }

  lemma ClearKept(m0: Mem, a0: Layout, m1: Mem, a1: Layout, root: nat, va: nat, stop: nat, level: nat, r: Option<Leaf>,
                  lo: nat, hi: nat, depth: nat)
    requires Progress(m0, a0, m1, a1, root, va, stop, level, r) && Clear(m0, a0, lo, hi, depth)
    requires va <= stop <= lo && hi <= VA_LIMIT && depth <= 3
    ensures Clear(m1, a1, lo, hi, depth)
  {
    forall v: nat | lo <= v < hi
      ensures PathClear(m1, a1, v, depth)
    {
      assert Kept(m0, a0, m1, a1, root, level, v) && PathClear(m0, a0, v, depth);
    }
  }

  lemma TabledKept(m0: Mem, a0: Layout, m1: Mem, a1: Layout, root: nat, va: nat, stop: nat, level: nat, r: Option<Leaf>,
                   lo: nat, hi: nat, depth: nat)
    requires Progress(m0, a0, m1, a1, root, va, stop, level, r) && Tabled(a0, lo, hi, depth)
    requires va <= stop <= lo && hi <= VA_LIMIT && depth <= 3
    ensures Tabled(a1, lo, hi, depth)
  {
    forall v: nat | lo <= v < hi
      ensures NodeOf(v, depth) in a1
    {
      assert Kept(m0, a0, m1, a1, root, level, v) && NodeOf(v, depth) in a0;
    }
  }

  /** No larger block is in the way of the entries that the huge mapper writes. */
  ghost predicate HugeClear(mem: Mem, at: Layout, va: nat, g: nat, h: nat, end: nat) {
    Clear(mem, at, va, g, 1) && Clear(mem, at, g, h, 2) && Clear(mem, at, h, end, 3)
  }

  /** Tables that hang below the range that was mapped only changed there. */
  lemma MissingKept(m0: Mem, a0: Layout, m1: Mem, a1: Layout, s0: seq<nat>, s1: seq<nat>, root: nat, va: nat, stop: nat,
                    level: nat, r: Option<Leaf>, lo: nat, hi: nat, depth: nat)
    requires Progress(m0, a0, m1, a1, root, va, stop, level, r) && va <= stop <= lo && hi <= VA_LIMIT && depth <= 3
    requires Drew(a0.Keys, a1.Keys, s0, s1, Missing(a0.Keys, va, stop, level), level)
    ensures Missing(a1.Keys, lo, hi, depth) == Missing(a0.Keys, lo, hi, depth) - Missing(a0.Keys, va, stop, level)
  {
    WaysLevels(va, stop, level);
    forall n | n in Ways(lo, hi, depth) && n.level > level
      ensures n in a1.Keys <==> n in a0.Keys
    {
      var v := WaysOf(lo, hi, depth, n);
      assert Kept(m0, a0, m1, a1, root, level, v);
    }
    MissingLater(a0.Keys, a1.Keys, Missing(a0.Keys, va, stop, level), level, lo, hi, depth);
  }

  /** No table comes below the entries of a range when a later one is mapped. */
  lemma UntabledKept(a1: Layout, a2: Layout, va: nat, stop: nat, level: nat, lo: nat, hi: nat, depth: nat)
    requires Untabled(a1, va, stop, level + 1) && 1 <= level < depth <= 3 && stop <= lo
             && (va < stop ==> Aligned(stop, level))
    requires Came(a1.Keys, a2.Keys, Missing(a1.Keys, lo, hi, depth), depth)
    ensures Untabled(a2, va, stop, level + 1)
  {
    var l, ways := level + 1, Ways(lo, hi, depth);
    forall v: nat | va <= v < stop
      ensures NodeOf(v, l) !in a2
    {
      OffWays(v, stop, level, lo, hi, depth, NodeOf(v, l));
    }
  }

  lemma OffWays(v: nat, stop: nat, level: nat, lo: nat, hi: nat, depth: nat, n: Node)
    requires 1 <= level < 3 && v < stop <= lo && Aligned(stop, level) && n == NodeOf(v, level + 1)
    ensures n !in Ways(lo, hi, depth)
  {
    if n in Ways(lo, hi, depth) {
      var w := WaysOf(lo, hi, depth, n);
      EntriesApart(v, w, stop, level);
    }
  }

  lemma EntriesApart(v: nat, w: nat, stop: nat, level: nat)
    requires 1 <= level < 3 && v < stop <= w && Aligned(stop, level)
    ensures NodeOf(v, level + 1) != NodeOf(w, level + 1)
  {
    if level == 1 {
      assert v / SIZE_1G < stop / SIZE_1G <= w / SIZE_1G;
    } else {
      assert v / SIZE_2M < stop / SIZE_2M <= w / SIZE_2M;
    }
  }

  /** The 4K loop puts no table below the 1G and 2M entries. */
  lemma StillBlocks(a2: Layout, a3: Layout, va: nat, g: nat, h: nat, end: nat)
    requires Untabled(a2, va, g, 2) && Untabled(a2, g, h, 3) && g <= h
             && a3.Keys == a2.Keys + Missing(a2.Keys, h, end, 3)
    requires (va < g ==> Aligned(g, 1)) && (g < h ==> Aligned(h, 2))
    ensures Untabled(a3, va, g, 2) && Untabled(a3, g, h, 3)
  {
    UntabledKept(a2, a3, va, g, 1, h, end, 3);
    UntabledKept(a2, a3, g, h, 2, h, end, 3);
  }

  /** What the 1G loop leaves for the loops after it. */
  lemma AfterGiants(m0: Mem, a0: Layout, m1: Mem, a1: Layout, s0: seq<nat>, s1: seq<nat>, root: nat, va: nat, g: nat,
                    h: nat, end: nat, r: Option<Leaf>)
    requires Progress(m0, a0, m1, a1, root, va, g, 1, r) && HugeClear(m0, a0, va, g, h, end)
             && va <= g <= h <= end <= VA_LIMIT
    requires Drew(a0.Keys, a1.Keys, s0, s1, Missing(a0.Keys, va, g, 1), 1)
             && |s0| >= |HugeMissing(a0.Keys, va, g, h, end)|
    ensures Clear(m1, a1, g, h, 2) && Clear(m1, a1, h, end, 3) && |s1| >= |Missing(a1.Keys, g, h, 2)|
  {
    ClearKept(m0, a0, m1, a1, root, va, g, 1, r, g, h, 2);
    ClearKept(m0, a0, m1, a1, root, va, g, 1, r, h, end, 3);
    MissingKept(m0, a0, m1, a1, s0, s1, root, va, g, 1, r, g, h, 2);
    FirstTwo(a0.Keys, a1.Keys, va, g, h, end);
  }

  /** What both leave for the 4K loop. */
  lemma AfterHuges(m0: Mem, a0: Layout, m1: Mem, a1: Layout, m2: Mem, a2: Layout, s0: seq<nat>, s1: seq<nat>,
                   s2: seq<nat>, root: nat, va: nat, g: nat, h: nat, end: nat, r: Option<Leaf>, q: Option<Leaf>)
    requires Progress(m0, a0, m1, a1, root, va, g, 1, r) && Progress(m1, a1, m2, a2, root, g, h, 2, q)
             && va <= g <= h <= end <= VA_LIMIT && Clear(m1, a1, h, end, 3) && (va < g ==> Aligned(g, 1))
    requires Drew(a0.Keys, a1.Keys, s0, s1, Missing(a0.Keys, va, g, 1), 1)
             && Drew(a1.Keys, a2.Keys, s1, s2, Missing(a1.Keys, g, h, 2), 2)
    ensures Clear(m2, a2, h, end, 3)
            && HugeDrew(HugeMissing(a0.Keys, va, g, h, end), Missing(a2.Keys, h, end, 3), s0, s2)
    ensures Untabled(a2, va, g, 2) && Untabled(a2, g, h, 3)
  {
    UntabledKept(a1, a2, va, g, 1, g, h, 2);
    ClearKept(m1, a1, m2, a2, root, g, h, 2, q, h, end, 3);
    MissingKept(m0, a0, m1, a1, s0, s1, root, va, g, 1, r, g, h, 2);
    MissingKept(m0, a0, m1, a1, s0, s1, root, va, g, 1, r, h, end, 3);
    MissingKept(m1, a1, m2, a2, s1, s2, root, g, h, 2, q, h, end, 3);
    AllThree(Missing(a0.Keys, va, g, 1), Missing(a0.Keys, g, h, 2), Missing(a0.Keys, h, end, 3),
             Missing(a1.Keys, g, h, 2), Missing(a2.Keys, h, end, 3), s0, s1, s2);
  }

  lemma ClearSub(mem: Mem, at: Layout, lo: nat, hi: nat, lo': nat, hi': nat, depth: nat)
    requires Clear(mem, at, lo, hi, 3) && lo <= lo' && hi' <= hi && depth <= 3
    ensures Clear(mem, at, lo', hi', depth)
  {
    forall v: nat | lo' <= v < hi'
      ensures PathClear(mem, at, v, depth)
    {
      assert PathClear(mem, at, v, 3);
    }
  }

  /** A descriptor leads to a table exactly if that table is in the tree. */
  lemma EntryLeads(mem: Mem, root: nat, at: Layout, va: nat, level: nat)
    requires Tree(mem, root, at) && va < VA_LIMIT && level <= 2 && NodeOf(va, level) in at
    ensures NodeOf(va, level + 1) in at <==> EntryAt(mem, at, va, level).valid && EntryAt(mem, at, va, level).table
  {
    PrefixStep(va, level);
    assert LinkOk(mem, at, NodeOf(va, level), Index(va, level));
  }

  /** The tables on the way are those down to a level. */
  lemma LacksBelow(mem: Mem, root: nat, at: Layout, va: nat, level: nat)
    requires Tree(mem, root, at) && va < VA_LIMIT && level <= 3 && NodeOf(va, level) in at
             && (level < 3 ==> NodeOf(va, level + 1) !in at)
    ensures |Lacks(at.Keys, va, 3)| == 3 - level
  {
    forall l: nat | 1 <= l <= 3
      ensures NodeOf(va, l) in at.Keys <==> l <= level
    {
      if l <= level {
        PathThere(mem, root, at, va, l, level);
      } else if NodeOf(va, l) in at {
        PathThere(mem, root, at, va, level + 1, l);
      }
    }
    LacksCount(at.Keys, va, level, 3);
  }

  /** There is no block in the root page. */
  lemma RootLeads(mem: Mem, root: nat, at: Layout, va: nat)
    requires Tree(mem, root, at) && va < VA_LIMIT && NodeOf(va, 1) in at
    ensures NodeOf(va, 0) in at && at[NodeOf(va, 0)] == root
            && EntryAt(mem, at, va, 0).valid && EntryAt(mem, at, va, 0).table
    ensures PathClear(mem, at, va, 2) <==> (EntryAt(mem, at, va, 1).valid ==> EntryAt(mem, at, va, 1).table)
  {
    assert NodeOf(va, 0) == Node(0, 0);
    EntryLeads(mem, root, at, va, 0);
  }

  lemma BlockThere(mem: Mem, root: nat, at: Layout, va: nat)
    requires Tree(mem, root, at) && va < VA_LIMIT && NodeOf(va, 1) in at && NodeOf(va, 2) !in at
             && Walk(mem, root, 0, va).Some?
    ensures EntryAt(mem, at, va, 1).valid && !EntryAt(mem, at, va, 1).table
  {
    WalkReaches(mem, root, at, va, 1);
    EntryLeads(mem, root, at, va, 1);
  }

  lemma BlockMaps(mem: Mem, root: nat, at: Layout, va: nat)
    requires Tree(mem, root, at) && va < VA_LIMIT && NodeOf(va, 1) in at
    requires EntryAt(mem, at, va, 1).valid && !EntryAt(mem, at, va, 1).table
    ensures var r := Walk(mem, root, 0, va);
            r.Some? && EntryAt(mem, at, va, 1).addr * SIZE_4K / SIZE_1G == r.value.pa / SIZE_1G
  {
    WalkReaches(mem, root, at, va, 1);
    var f := EntryAt(mem, at, va, 1).addr;
    assert f * SIZE_4K / SIZE_1G == f / (512 * 512);
  }

  /** Writing the entry of `cva` takes no table away down to its level. */
  lemma PrunedAbove(a0: Layout, a: Layout, add: set<Node>, cva: nat, level: nat)
    requires a.Keys == a0.Keys + add
    ensures Came(a0.Keys, Prune(a, NodeOf(cva, level + 1)).Keys, add, level)
  {
  }

  lemma CameAll(a0: Layout, a1: Layout, add: set<Node>)
    requires Came(a0.Keys, a1.Keys, add, 3) && Shallow(a0) && Shallow(a1) && UpTo(add, 3)
    ensures a1.Keys == a0.Keys + add
  {
  }

  /** The tables on the way to level `level` are there, and only those that were missing were added. */
  ghost predicate Descended(m0: Mem, a0: Layout, s0: seq<nat>, m1: Mem, a1: Layout, s1: seq<nat>, root: nat, va: nat,
                            level: nat) {
    && Extends(m0, a0, m1, a1, root) && NodeOf(va, level) in a1
    && a1.Keys == a0.Keys + Lacks(a0.Keys, va, level) && Taken(s0, s1, |Lacks(a0.Keys, va, level)|)
  }

  ghost predicate Supplied(mem: Mem, supply: seq<nat>) {
    NoDup(supply) && forall f :: f in supply ==> f !in mem && f < FRAME_LIMIT
  }

  /** The table pages are the root and those of `frames` that are no longer in the supply. */
  ghost predicate Drawn(mem: Mem, root: nat, supply: seq<nat>, frames: set<nat>) {
    && (forall f :: f in mem ==> f == root || f in frames)
    && (forall f :: f in frames ==> f in mem || f in supply)
  }

  lemma DrawOne(mem: Mem, root: nat, supply: seq<nat>, frames: set<nat>, cur: nat, i: nat)
    requires Drawn(mem, root, supply, frames) && Supplied(mem, supply) && |supply| > 0 && supply[0] in frames
    requires cur in mem && i < |mem[cur]|
    ensures Drawn(Attach(mem, cur, i, supply[0]), root, supply[1..], frames)
            && Supplied(Attach(mem, cur, i, supply[0]), supply[1..])
  {
    forall f | f in supply[1..]
      ensures f in supply && f != supply[0]
    {
      var j :| 0 <= j < |supply[1..]| && supply[1..][j] == f;
      assert supply[j + 1] == f;
    }
  }

  class PageTable {
    const root: nat
    var mem: Mem
    /** The frames that the page allocator hands out for the next tables, in order. */
    var supply: seq<nat>
    /** All that it was given to hand out. */
    ghost var frames: set<nat>
    ghost var at: Layout

    ghost predicate Valid()
      reads this
    {
      Tree(mem, root, at) && Supplied(mem, supply) && Drawn(mem, root, supply, frames)
      && forall f :: f in supply ==> f in frames
    }

    /** No entry of more than 4K is in use. */
    ghost predicate Plain()
      reads this
    {
      Clear(mem, at, 0, VA_LIMIT, 3)
    }

    function Query(va: nat): Option<Leaf>
      reads this
    {
      Walk(mem, root, 0, va)
    }

    /** A zeroed root page. */
    constructor (root: nat, supply: seq<nat>)
      requires root !in supply && NoDup(supply) && forall f :: f in supply ==> f < FRAME_LIMIT
      ensures Valid() && this.root == root && this.supply == supply && frames == (set f | f in supply) && Tight(mem, at)
      ensures Plain() && Empty(mem, root, 0, VA_LIMIT)
    {
      this.root := root;
      mem := map[root := NewTable()];
      this.supply := supply;
      this.frames := set f | f in supply;
      at := map[Node(0, 0) := root];
      new;
      forall i | 0 <= i < ENTRIES
        ensures LinkOk(mem, at, Node(0, 0), i)
      {
        assert mem[root][i] == ZERO_PTE;
      }
      assert at[Node(0, 0)] == root;
    }

    /** get_next_ptp without allocation. */
    method LookupPtp(cur: nat, level: nat, va: nat) returns (kind: PtpKind, next: nat)
      requires Valid() && level <= 3 && va < VA_LIMIT && NodeOf(va, level) in at && cur == at[NodeOf(va, level)]
      ensures var e := EntryAt(mem, at, va, level);
              && next == e.addr
              && kind == (if !e.valid then NoMapping else if e.table then NormalPtp else BlockPtp)
      ensures kind == NormalPtp && level < 3 ==> NodeOf(va, level + 1) in at && next == at[NodeOf(va, level + 1)]
    {
      PrefixStep(va, level);
      var e := mem[cur][Index(va, level)];
      next := e.addr;
      assert level < 3 ==> LinkOk(mem, at, NodeOf(va, level), Index(va, level));
      if !e.valid {
        kind := NoMapping;
      } else if e.table {
        kind := NormalPtp;
      } else {
        kind := BlockPtp;
      }
    }

    /** get_next_ptp with allocation. */
    method GetNextPtp(cur: nat, level: nat, va: nat) returns (kind: PtpKind, next: nat)
      requires Valid() && level <= 2 && va < VA_LIMIT && NodeOf(va, level) in at && cur == at[NodeOf(va, level)]
      requires EntryAt(mem, at, va, level).valid || |supply| > 0
      modifies this`mem, this`at, this`supply
      ensures Valid() && Extends(old(mem), old(at), mem, at, root)
      ensures var e := EntryAt(old(mem), old(at), va, level);
              && kind == (if !e.valid || e.table then NormalPtp else BlockPtp)
              && Taken(old(supply), supply, if e.valid then 0 else 1)
      ensures kind == NormalPtp ==> NodeOf(va, level + 1) in at && next == at[NodeOf(va, level + 1)]
                                    && at.Keys == old(at).Keys + {NodeOf(va, level + 1)}
      ensures kind == BlockPtp ==> mem == old(mem) && at == old(at) && next == EntryAt(mem, at, va, level).addr
    {
      PrefixStep(va, level);
      ghost var n := NodeOf(va, level);
      var i := Index(va, level);
      assert LinkOk(mem, at, n, i);
      if !mem[cur][i].valid {
        var g := supply[0];
        AttachTree(mem, root, at, n, i, g);
        AttachExtends(mem, root, at, n, i, g);
        DrawOne(mem, root, supply, frames, cur, i);
        supply := supply[1..];
        mem := Attach(mem, cur, i, g);
        at := at[Child(n, i) := g];
      }
      next := mem[cur][i].addr;
      kind := if mem[cur][i].table then NormalPtp else BlockPtp;
    }

    /** One frame more to come from the page allocator. */
    method AddFrame(f: nat)
      requires Valid() && f != root && f !in frames && f < FRAME_LIMIT
      modifies this`supply, this`frames
      ensures Valid() && supply == old(supply) + [f] && frames == old(frames) + {f}
    {
      supply := supply + [f];
      frames := frames + {f};
    }

    /** How many tables get_next_ptp has to make on the way to a 4K entry. */
    method TablesFor(va: nat) returns (n: nat)
      requires Valid() && va < VA_LIMIT && PathClear(mem, at, va, 3)
      ensures n == |Lacks(at.Keys, va, 3)|
    {
      var level := 0;
      var cur := root;
      while level < 3
        invariant level <= 3 && NodeOf(va, level) in at && cur == at[NodeOf(va, level)]
      {
        EntryLeads(mem, root, at, va, level);
        var kind, next := LookupPtp(cur, level, va);
        if kind == NoMapping {
          break;
        }
        cur := next;
        level := level + 1;
      }
      LacksBelow(mem, root, at, va, level);
      n := 3 - level;
    }

    method QueryInPgtbl(va: nat) returns (r: Option<Leaf>)
      requires Valid() && va < VA_LIMIT
      ensures r == Query(va)
    {
      var level := 0;
      var cur := root;
      while true
        invariant level <= 3 && NodeOf(va, level) in at && cur == at[NodeOf(va, level)]
        invariant Walk(mem, root, 0, va) == Walk(mem, cur, level, va)
        decreases 3 - level
      {
        PrefixStep(va, level);
        var kind, next := LookupPtp(cur, level, va);
        if kind == NoMapping {
          return None;
        } else if level == 3 || kind == BlockPtp {
          return LeafOf(mem[cur][Index(va, level)], level, va);
        } else {
          cur := next;
          level := level + 1;
        }
      }
    }

    /** The first two rounds of the descent loop of the 4K mapper, for an address with an entry of level 1.  It gets to
        the table of level 2 exactly if that entry is no block.  Below a block it takes a page of the memory that the
        block maps. */
    method LevelTwo(va: nat) returns (kind: PtpKind, frame: nat)
      requires Valid() && va < VA_LIMIT && NodeOf(va, 1) in at && EntryAt(mem, at, va, 1).valid
      ensures kind == NormalPtp <==> PathClear(mem, at, va, 2)
      ensures kind == NormalPtp ==> NodeOf(va, 2) in at && frame == at[NodeOf(va, 2)]
      ensures kind != NormalPtp ==> NodeOf(va, 2) !in at && Query(va).Some?
                                    && frame * SIZE_4K / SIZE_1G == Query(va).value.pa / SIZE_1G
    {
      RootLeads(mem, root, at, va);
      EntryLeads(mem, root, at, va, 1);
      kind, frame := LookupPtp(root, 0, va);
      kind, frame := LookupPtp(frame, 1, va);
      if kind != NormalPtp {
        BlockMaps(mem, root, at, va);
      }
    }

    /** The descent loops of the mappers, down to the table at `depth`. */
    method Descend(va: nat, depth: nat) returns (ptp: nat)
      requires Valid() && va < VA_LIMIT && depth <= 3 && PathClear(mem, at, va, depth)
      requires |supply| >= |Lacks(at.Keys, va, depth)|
      modifies this`mem, this`at, this`supply
      ensures Valid() && Extends(old(mem), old(at), mem, at, root)
      ensures at.Keys == old(at).Keys + Lacks(old(at).Keys, va, depth)
      ensures Taken(old(supply), supply, |Lacks(old(at).Keys, va, depth)|)
      ensures NodeOf(va, depth) in at && ptp == at[NodeOf(va, depth)]
    {
      var level := 0;
      ptp := root;
      ghost var m0, a0, s0 := mem, at, supply;
      while level < depth
        invariant level <= depth && Valid() && Descended(m0, a0, s0, mem, at, supply, root, va, level)
        invariant ptp == at[NodeOf(va, level)]
      {
        ptp := DescendNext(ptp, level, va, depth, m0, a0, s0);
        level := level + 1;
      }
    }

    /** One round of it. */
    method DescendNext(cur: nat, level: nat, va: nat, ghost depth: nat, ghost m0: Mem, ghost a0: Layout,
                       ghost s0: seq<nat>) returns (next: nat)
      requires Valid() && Descended(m0, a0, s0, mem, at, supply, root, va, level) && cur == at[NodeOf(va, level)]
      requires level < depth <= 3 && va < VA_LIMIT && PathClear(m0, a0, va, depth)
               && |s0| >= |Lacks(a0.Keys, va, depth)|
      modifies this`mem, this`at, this`supply
      ensures Valid() && Descended(m0, a0, s0, mem, at, supply, root, va, level + 1)
              && next == at[NodeOf(va, level + 1)]
    {
      ghost var k1, s1, n := at.Keys, supply, NodeOf(va, level + 1);
      TableReady(a0.Keys, k1, s0, s1, va, level, n, depth);
      assert PathClear(mem, at, va, depth);
      next := DescendOne(cur, level, va, m0, a0);
      TableAdded(a0.Keys, k1, at.Keys, s0, s1, supply, va, level, n);
    }

    /** One level down, with a new table if there is none. */
    method DescendOne(cur: nat, level: nat, va: nat, ghost m0: Mem, ghost a0: Layout) returns (next: nat)
      requires Valid() && level <= 2 && va < VA_LIMIT && NodeOf(va, level) in at && cur == at[NodeOf(va, level)]
      requires Extends(m0, a0, mem, at, root) && (|supply| > 0 || NodeOf(va, level + 1) in at)
      requires EntryAt(mem, at, va, level).valid ==> EntryAt(mem, at, va, level).table
      modifies this`mem, this`at, this`supply
      ensures Valid() && Extends(m0, a0, mem, at, root) && at.Keys == old(at).Keys + {NodeOf(va, level + 1)}
      ensures Taken(old(supply), supply, if NodeOf(va, level + 1) in old(at) then 0 else 1)
      ensures NodeOf(va, level + 1) in at && next == at[NodeOf(va, level + 1)]
    {
      ghost var m1, a1 := mem, at;
      EntryLeads(mem, root, at, va, level);
      var kind, ptp := GetNextPtp(cur, level, va);
      ExtendsTrans(m0, a0, m1, a1, mem, at, root);
      next := ptp;
    }

    /** The descent loops of the unmappers: every table on the way must be there. */
    method LookupTable(va: nat, depth: nat) returns (ptp: nat)
      requires Valid() && va < VA_LIMIT && depth <= 3 && NodeOf(va, depth) in at
      ensures ptp == at[NodeOf(va, depth)]
    {
      var level := 0;
      ptp := root;
      while level < depth
        invariant level <= depth && NodeOf(va, level) in at && ptp == at[NodeOf(va, level)]
      {
        PathThere(mem, root, at, va, level + 1, depth);
        PrefixStep(va, level);
        assert LinkOk(mem, at, NodeOf(va, level), Index(va, level));
        var kind, next := LookupPtp(ptp, level, va);
        assert kind == NormalPtp;
        ptp := next;
        level := level + 1;
      }
    }

    /** One round of a mapping loop: descend to the table at `level` and write the entry for `cva`. */
    method MapEntry(level: nat, cva: nat, cpa: nat, flags: Flags)
      requires Valid() && 1 <= level <= 3 && cva < VA_LIMIT && cpa < PA_LIMIT
      requires Aligned(cva, level) && Aligned(cpa, level)
      requires PathClear(mem, at, cva, level) && |supply| >= |Lacks(at.Keys, cva, level)|
      modifies this`mem, this`at, this`supply
      ensures Valid()
      ensures Drew(old(at).Keys, at.Keys, old(supply), supply, Lacks(old(at).Keys, cva, level), level)
      ensures EntrySet(old(mem), old(at), mem, at, root, level, cva, Some(Leaf(cpa, AttrsFor(flags))))
    {
      ghost var m0, a0 := mem, at;
      var ptp := Descend(cva, level);
      WayLevels(cva, level);
      WriteLeaf(level, cva, cpa, flags, ptp, m0, a0, Lacks(a0.Keys, cva, level));
    }

    /** The end of the round, after the tables of `add` came to those of `a0`. */
    method WriteLeaf(level: nat, cva: nat, cpa: nat, flags: Flags, ptp: nat, ghost m0: Mem, ghost a0: Layout,
                     ghost add: set<Node>)
      requires Valid() && 1 <= level <= 3 && cva < VA_LIMIT && cpa < PA_LIMIT
      requires Aligned(cva, level) && Aligned(cpa, level) && NodeOf(cva, level) in at && ptp == at[NodeOf(cva, level)]
      requires Tree(m0, root, a0) && Extends(m0, a0, mem, at, root) && at.Keys == a0.Keys + add && UpTo(add, level)
      modifies this`mem, this`at
      ensures Valid() && Came(a0.Keys, at.Keys, add, level)
      ensures EntrySet(m0, a0, mem, at, root, level, cva, Some(Leaf(cpa, AttrsFor(flags))))
    {
      PrunedAbove(a0, at, add, cva, level);
      PrefixStep(cva, level);
      var i := Index(cva, level);
      var e := PutLeaf(mem[ptp][i], level, cpa, flags);
      forall v: nat | v < VA_LIMIT && SameEntry(v, cva, level)
        ensures LeafOf(e, level, v) == Shift(Some(Leaf(cpa, AttrsFor(flags))), cva, v)
      {
        PutLeafGives(mem[ptp][i], level, cpa, flags, cva, v);
      }
      EntrySetOk(m0, a0, mem, at, root, level, cva, e, Some(Leaf(cpa, AttrsFor(flags))));
      mem := SetEntry(mem, ptp, i, e);
      at := Prune(at, NodeOf(cva, level + 1));
    }

    /** One round of an unmapping loop: find the table at `level` and clear the valid bit of the entry for `cva`. */
    method UnmapEntry(level: nat, cva: nat)
      requires Valid() && 1 <= level <= 3 && cva < VA_LIMIT && NodeOf(cva, level) in at
      modifies this`mem, this`at
      ensures Valid()
      ensures EntrySet(old(mem), old(at), mem, at, root, level, cva, None)
    {
      var ptp := LookupTable(cva, level);
      PrefixStep(cva, level);
      var i := Index(cva, level);
      var e := mem[ptp][i].(valid := false);
      EntrySetOk(mem, at, mem, at, root, level, cva, e, None);
      mem := SetEntry(mem, ptp, i, e);
      at := Prune(at, NodeOf(cva, level + 1));
    }

    /** Round `i` of a mapping loop that began with tables `m0` laid out by `a0` and has reached `cva`. */
    method MapRound(level: nat, cva: nat, cpa: nat, flags: Flags, ghost m0: Mem, ghost a0: Layout, ghost va: nat,
                    ghost pa: nat, ghost i: nat, ghost n: nat, ghost stop: nat, ghost next: nat, ghost s0: seq<nat>)
      requires Valid() && RoundFits(level, va, pa, i, n, stop, cva, cpa) && i < n && next == cva + EntrySize(level)
      requires Shallow(a0) && Clear(m0, a0, va, stop, level) && |s0| >= |Missing(a0.Keys, va, stop, level)|
      requires Drew(a0.Keys, at.Keys, s0, supply, Missing(a0.Keys, va, cva, level), level)
      requires Progress(m0, a0, mem, at, root, va, cva, level, Some(Leaf(pa, AttrsFor(flags))))
      modifies this`mem, this`at, this`supply
      ensures Valid() && Drew(a0.Keys, at.Keys, s0, supply, Missing(a0.Keys, va, next, level), level)
      ensures Progress(m0, a0, mem, at, root, va, next, level, Some(Leaf(pa, AttrsFor(flags))))
    {
      ghost var m1, a1, s1, r := mem, at, supply, Some(Leaf(pa, AttrsFor(flags)));
      TreeShallow(mem, root, at);
      RoundReady(m0, a0, m1, a1, root, level, va, pa, i, n, stop, cva, cpa, r);
      EnoughForRound(a0.Keys, a1.Keys, s0, s1, va, cva, next, stop, level);
      MapEntry(level, cva, cpa, flags);
      DrewRound(a0.Keys, a1.Keys, at.Keys, s0, s1, supply, va, cva, next, level);
      ProgressRound(m0, a0, m1, a1, mem, at, root, level, va, pa, i, n, stop, cva, cpa, next, r,
                    Some(Leaf(cpa, AttrsFor(flags))));
    }

    /** Round `i` of an unmapping loop. */
    method UnmapRound(level: nat, cva: nat, ghost m0: Mem, ghost a0: Layout, ghost va: nat, ghost i: nat, ghost n: nat,
                      ghost stop: nat, ghost next: nat)
      requires Valid() && RoundFits(level, va, va, i, n, stop, cva, cva) && i < n && next == cva + EntrySize(level)
      requires Shallow(a0) && Tabled(a0, va, stop, level)
      requires Progress(m0, a0, mem, at, root, va, cva, level, None)
      modifies this`mem, this`at
      ensures Valid()
      ensures Progress(m0, a0, mem, at, root, va, next, level, None)
    {
      ghost var m1, a1 := mem, at;
      TreeShallow(mem, root, at);
      RoundReady(m0, a0, m1, a1, root, level, va, va, i, n, stop, cva, cva, None);
      UnmapEntry(level, cva);
      ProgressRound(m0, a0, m1, a1, mem, at, root, level, va, va, i, n, stop, cva, cva, next, None, None);
    }

    /** The mapping loops: `n` entries of `level` from `va` on, with `stop` as the end of the range. */
    method MapEntries(level: nat, va: nat, pa: nat, n: nat, flags: Flags, ghost stop: nat)
      requires Valid() && 1 <= level <= 3 && (n > 0 ==> Aligned(va, level) && Aligned(pa, level))
      requires stop == va + Bytes(n, level) <= VA_LIMIT && pa + Bytes(n, level) <= PA_LIMIT
      requires Clear(mem, at, va, stop, level) && |supply| >= |Missing(at.Keys, va, stop, level)|
      modifies this`mem, this`at, this`supply
      ensures Valid() && Drew(old(at).Keys, at.Keys, old(supply), supply, Missing(old(at).Keys, va, stop, level), level)
      ensures Progress(old(mem), old(at), mem, at, root, va, stop, level, Some(Leaf(pa, AttrsFor(flags))))
    {
      ghost var m0, a0, s0 := mem, at, supply;
      var cva: nat, cpa: nat := va, pa;
      TreeShallow(mem, root, at);
      ProgressZero(mem, at, root, va, level, Some(Leaf(pa, AttrsFor(flags))));
      DrewNothing(at.Keys, supply, va, level);
      for i := 0 to n
        invariant Valid() && RoundFits(level, va, pa, i, n, stop, cva, cpa)
        invariant Drew(a0.Keys, at.Keys, s0, supply, Missing(a0.Keys, va, cva, level), level)
        invariant Progress(m0, a0, mem, at, root, va, cva, level, Some(Leaf(pa, AttrsFor(flags))))
      {
        var next, nextpa := cva + EntrySize(level), cpa + EntrySize(level);
        RoundNext(level, va, pa, i, n, stop, cva, cpa, next, nextpa);
        MapRound(level, cva, cpa, flags, m0, a0, va, pa, i, n, stop, next, s0);
        cva, cpa := next, nextpa;
      }
      assert cva == stop;
    }

    /** The unmapping loops. */
    method UnmapEntries(level: nat, va: nat, n: nat, ghost stop: nat)
      requires Valid() && 1 <= level <= 3 && (n > 0 ==> Aligned(va, level)) && stop == va + Bytes(n, level) <= VA_LIMIT
      requires Tabled(at, va, stop, level)
      modifies this`mem, this`at
      ensures Valid()
      ensures Progress(old(mem), old(at), mem, at, root, va, stop, level, None)
    {
      ghost var m0, a0 := mem, at;
      var cva: nat := va;
      TreeShallow(mem, root, at);
      ProgressZero(mem, at, root, va, level, None);
      for i := 0 to n
        invariant Valid() && RoundFits(level, va, va, i, n, stop, cva, cva)
        invariant Progress(m0, a0, mem, at, root, va, cva, level, None)
      {
        var next := cva + EntrySize(level);
        RoundNext(level, va, va, i, n, stop, cva, cva, next, next);
        UnmapRound(level, cva, m0, a0, va, i, n, stop, next);
        cva := next;
      }
      assert cva == stop;
    }

    method MapPages(va: nat, pa: nat, len: nat, flags: Flags, ghost stop: nat)
      requires Valid() && Aligned(va, 3) && Aligned(pa, 3) && stop == va + RoundUp(len) <= VA_LIMIT
               && pa + RoundUp(len) <= PA_LIMIT
      requires Clear(mem, at, va, stop, 3) && |supply| >= |Missing(at.Keys, va, stop, 3)|
      modifies this`mem, this`at, this`supply
      ensures Valid() && at.Keys == old(at).Keys + Missing(old(at).Keys, va, stop, 3)
      ensures Taken(old(supply), supply, |Missing(old(at).Keys, va, stop, 3)|)
      ensures Progress(old(mem), old(at), mem, at, root, va, stop, 3, Some(Leaf(pa, AttrsFor(flags))))
    {
      TreeShallow(mem, root, at);
      MapEntries(3, va, pa, (len + SIZE_4K - 1) / SIZE_4K, flags, stop);
      TreeShallow(mem, root, at);
      WaysLevels(va, stop, 3);
      CameAll(old(at), at, Missing(old(at).Keys, va, stop, 3));
    }

    method UnmapPages(va: nat, len: nat, ghost stop: nat)
      requires Valid() && Aligned(va, 3) && stop == va + RoundUp(len) <= VA_LIMIT && Tabled(at, va, stop, 3)
      modifies this`mem, this`at
      ensures Valid() && Progress(old(mem), old(at), mem, at, root, va, stop, 3, None)
    {
      UnmapEntries(3, va, (len + SIZE_4K - 1) / SIZE_4K, stop);
    }

    /** The same with what follows for the translation. */
    method MapPagesTo(va: nat, pa: nat, len: nat, flags: Flags, ghost stop: nat)
      requires Valid() && Aligned(va, 3) && Aligned(pa, 3) && stop == va + RoundUp(len) <= VA_LIMIT
               && pa + RoundUp(len) <= PA_LIMIT
      requires Clear(mem, at, va, stop, 3) && |supply| >= |Missing(at.Keys, va, stop, 3)|
      modifies this`mem, this`at, this`supply
      ensures Valid() && Mapped(old(mem), old(at), mem, at, root, va, stop, Some(Leaf(pa, AttrsFor(flags))))
      ensures at.Keys == old(at).Keys + Missing(old(at).Keys, va, stop, 3)
      ensures Taken(old(supply), supply, |Missing(old(at).Keys, va, stop, 3)|)
    {
      ghost var m0, a0, r := mem, at, Some(Leaf(pa, AttrsFor(flags)));
      TreeShallow(mem, root, at);
      MapPages(va, pa, len, flags, stop);
      RangeMapped(m0, a0, mem, at, root, va, stop, r);
    }

    /** map_range_in_pgtbl. */
    method MapRange(va: nat, pa: nat, len: nat, flags: Flags)
      requires Valid() && Aligned(va, 3) && Aligned(pa, 3) && End(va, len) <= VA_LIMIT
               && pa + RoundUp(len) <= PA_LIMIT
      requires Clear(mem, at, va, End(va, len), 3) && |supply| >= |Missing(at.Keys, va, End(va, len), 3)|
      modifies this`mem, this`at, this`supply
      ensures Valid() && at.Keys == old(at).Keys + Missing(old(at).Keys, va, End(va, len), 3)
      ensures Taken(old(supply), supply, |Missing(old(at).Keys, va, End(va, len), 3)|)
      ensures Remapped(old(mem), mem, root, va, End(va, len), Some(Leaf(pa, AttrsFor(flags))))
      ensures MapsTo(mem, root, va, End(va, len), pa, flags)
      ensures Tabled(at, va, End(va, len), 3) && (old(Plain()) ==> Plain())
      ensures Tight(mem, at) <==> Tight(old(mem), old(at))
    {
      MapPagesTo(va, pa, len, flags, End(va, len));
      RemappedMaps(old(mem), mem, root, va, End(va, len), pa, flags);
    }

    /** unmap_range_in_pgtbl. */
    method UnmapRange(va: nat, len: nat)
      requires Valid() && Aligned(va, 3) && End(va, len) <= VA_LIMIT && Tabled(at, va, End(va, len), 3)
      modifies this`mem, this`at
      ensures Valid()
      ensures Remapped(old(mem), mem, root, va, End(va, len), None)
      ensures Tabled(at, va, End(va, len), 3)
      ensures Tight(mem, at) <==> Tight(old(mem), old(at))
    {
      TreeShallow(mem, root, at);
      UnmapPages(va, len, End(va, len));
      ProgressQuery(old(mem), old(at), mem, at, root, va, End(va, len), 3, None);
    }

    /** The 1G and 2M loops of map_range_in_pgtbl_huge: `n1` entries of 1G, then `n2` entries of 2M. */
    method MapBlocks(va: nat, pa: nat, n1: nat, n2: nat, flags: Flags, g: nat, gpa: nat, ghost h: nat, ghost end: nat)
      returns (ghost m1: Mem, ghost a1: Layout)
      requires Valid() && (n1 > 0 ==> Aligned(va, 1) && Aligned(pa, 1)) && (n2 > 0 ==> Aligned(g, 2) && Aligned(gpa, 2))
               && (n1 > 0 ==> Aligned(g, 1))
      requires g == va + Bytes(n1, 1) && h == g + Bytes(n2, 2) <= end <= VA_LIMIT
      requires gpa == pa + Bytes(n1, 1) && gpa + Bytes(n2, 2) <= PA_LIMIT
      requires HugeClear(mem, at, va, g, h, end) && |supply| >= |HugeMissing(at.Keys, va, g, h, end)|
      modifies this`mem, this`at, this`supply
      ensures Valid() && Clear(mem, at, h, end, 3)
      ensures Progress(old(mem), old(at), m1, a1, root, va, g, 1, Some(Leaf(pa, AttrsFor(flags))))
      ensures Progress(m1, a1, mem, at, root, g, h, 2, Some(Leaf(gpa, AttrsFor(flags))))
      ensures HugeDrew(HugeMissing(old(at).Keys, va, g, h, end), Missing(at.Keys, h, end, 3), old(supply), supply)
      ensures Untabled(at, va, g, 2) && Untabled(at, g, h, 3)
    {
      ghost var m0, a0, s0, r := mem, at, supply, Some(Leaf(pa, AttrsFor(flags)));
      FirstPhase(a0.Keys, va, g, h, end);
      MapEntries(1, va, pa, n1, flags, g);
      m1, a1 := mem, at;
      ghost var s1 := supply;
      AfterGiants(m0, a0, m1, a1, s0, s1, root, va, g, h, end, r);
      MapEntries(2, g, gpa, n2, flags, h);
      AfterHuges(m0, a0, m1, a1, mem, at, s0, s1, supply, root, va, g, h, end, r, Some(Leaf(gpa, AttrsFor(flags))));
    }

    /** All three loops: after the blocks, 4K entries for the `tail`. */
    method MapPhases(va: nat, pa: nat, n1: nat, n2: nat, tail: nat, flags: Flags, g: nat, h: nat, ghost end: nat,
                     gpa: nat, hpa: nat)
      requires Valid() && PhasesFit(va, pa, n1, n2, tail, g, h, end, gpa, hpa)
      requires HugeClear(mem, at, va, g, h, end) && |supply| >= |HugeMissing(at.Keys, va, g, h, end)|
      modifies this`mem, this`at, this`supply
      ensures Valid() && HugeProgress(old(mem), old(at), mem, at, root, va, g, h, end, Some(Leaf(pa, AttrsFor(flags))))
      ensures Taken(old(supply), supply, |HugeMissing(old(at).Keys, va, g, h, end)|)
      ensures Untabled(at, va, g, 2) && Untabled(at, g, h, 3)
    {
      ghost var m0, a0, s0 := mem, at, supply;
      ghost var m1, a1 := MapBlocks(va, pa, n1, n2, flags, g, gpa, h, end);
      ghost var m2, a2, s2 := mem, at, supply;
      TreeShallow(mem, root, at);
      MapPages(h, hpa, tail, flags, end);
      StillBlocks(a2, at, va, g, h, end);
      PhasesMapped(m0, a0, m1, a1, m2, a2, mem, at, root, va, pa, n1, n2, tail, g, h, end, gpa, hpa, AttrsFor(flags));
    }

    /** map_range_in_pgtbl_huge.  An entry of its own size may be in the way, a larger one may not. */
    method MapRangeHuge(va: nat, pa: nat, len: nat, flags: Flags)
      requires Valid() && HugeAligned(va, pa, len) && End(va, len) <= VA_LIMIT && pa + RoundUp(len) <= PA_LIMIT
      requires HugeClear(mem, at, va, GiantEnd(va, len), HugeEnd(va, len), End(va, len))
      requires |supply| >= |HugeMissing(at.Keys, va, GiantEnd(va, len), HugeEnd(va, len), End(va, len))|
      modifies this`mem, this`at, this`supply
      ensures Valid()
      ensures Taken(old(supply), supply,
                    |HugeMissing(old(at).Keys, va, GiantEnd(va, len), HugeEnd(va, len), End(va, len))|)
      ensures Remapped(old(mem), mem, root, va, End(va, len), Some(Leaf(pa, AttrsFor(flags))))
      ensures MapsTo(mem, root, va, End(va, len), pa, flags)
      ensures HugeTabled(at, va, GiantEnd(va, len), HugeEnd(va, len), End(va, len))
              && Untabled(at, va, GiantEnd(va, len), 2) && Untabled(at, GiantEnd(va, len), HugeEnd(va, len), 3)
      ensures Tight(mem, at) <==> Tight(old(mem), old(at)) && Untabled(old(at), va, GiantEnd(va, len), 2)
                                  && Untabled(old(at), GiantEnd(va, len), HugeEnd(va, len), 3)
    {
      var n1, n2, tail := len / SIZE_1G, len % SIZE_1G / SIZE_2M, len % SIZE_1G % SIZE_2M;
      var g, h, gpa, hpa := GiantEnd(va, len), HugeEnd(va, len), pa + Giant(len), pa + Huge(len);
      ghost var end := End(va, len);
      HugeFits(va, pa, len, n1, n2, tail, g, h, end, gpa, hpa);
      MapPhases(va, pa, n1, n2, tail, flags, g, h, end, gpa, hpa);
      HugeQuery(old(mem), old(at), mem, at, root, va, g, h, end, Some(Leaf(pa, AttrsFor(flags))));
      RemappedMaps(old(mem), mem, root, va, end, pa, flags);
    }

    /** The loops of unmap_range_in_pgtbl_huge. */
    method UnmapPhases(va: nat, n1: nat, n2: nat, tail: nat, g: nat, h: nat, ghost end: nat)
      requires Valid() && PhasesFit(va, va, n1, n2, tail, g, h, end, g, h) && HugeTabled(at, va, g, h, end)
      modifies this`mem, this`at
      ensures Valid() && HugeProgress(old(mem), old(at), mem, at, root, va, g, h, end, None)
    {
      ghost var m0, a0 := mem, at;
      UnmapEntries(1, va, n1, g);
      ghost var m1, a1 := mem, at;
      TabledKept(m0, a0, m1, a1, root, va, g, 1, None, g, h, 2);
      TabledKept(m0, a0, m1, a1, root, va, g, 1, None, h, end, 3);
      UnmapEntries(2, g, n2, h);
      ghost var m2, a2 := mem, at;
      TabledKept(m1, a1, m2, a2, root, g, h, 2, None, h, end, 3);
      TreeShallow(mem, root, at);
      UnmapPages(h, tail, end);
      HugePhases(m0, a0, m1, a1, m2, a2, mem, at, root, va, g, h, end, None, None, None);
    }

    method UnmapRangeHuge(va: nat, len: nat)
      requires Valid() && HugeAligned(va, va, len) && End(va, len) <= VA_LIMIT
      requires HugeTabled(at, va, GiantEnd(va, len), HugeEnd(va, len), End(va, len))
      modifies this`mem, this`at
      ensures Valid()
      ensures Remapped(old(mem), mem, root, va, End(va, len), None)
      ensures Tight(mem, at) <==> Tight(old(mem), old(at)) && Untabled(old(at), va, GiantEnd(va, len), 2)
                                  && Untabled(old(at), GiantEnd(va, len), HugeEnd(va, len), 3)
    {
      var n1, n2, tail := len / SIZE_1G, len % SIZE_1G / SIZE_2M, len % SIZE_1G % SIZE_2M;
      var g, h := GiantEnd(va, len), HugeEnd(va, len);
      ghost var end := End(va, len);
      HugeFits(va, va, len, n1, n2, tail, g, h, end, g, h);
      UnmapPhases(va, n1, n2, tail, g, h, end);
      HugeQuery(old(mem), old(at), mem, at, root, va, g, h, end, None);
    }

    /** free_page_table below one table page: the pages of its subtree, children before parents. */
    method FreeTables(f: nat, level: nat, ghost n: Node) returns (freed: seq<nat>)
      requires Valid() && n in at && n.level == level && f == at[n]
      ensures NoDup(freed)
      ensures forall g :: g in freed <==> g in (set m | m in at && Under(m, n) :: at[m])
      decreases 3 - level
    {
      freed := [];
      BelowAll(at, n);
      if level < 3 {
        for i := 0 to ENTRIES
          invariant NoDup(freed) && forall g :: g in freed <==> g in BelowFirst(at, n, i)
        {
          assert LinkOk(mem, at, n, i);
          var e := mem[f][i];
          BelowNext(mem, root, at, n, i);
          if e.valid && e.table {
            var sub := FreeTables(e.addr, level + 1, Child(n, i));
            NoDupConcat(freed, sub);
            freed := freed + sub;
          }
        }
      }
      NoDupConcat(freed, [f]);
      freed := freed + [f];
    }

    /** free_page_table: what it frees, each page once. */
    method FreePageTable() returns (freed: seq<nat>)
      requires Valid()
      ensures NoDup(freed) && forall f :: f in freed <==> f in at.Values
      ensures Tight(mem, at) <==> forall f :: f in freed <==> f == root || (f in frames && f !in supply)
      ensures !Tight(mem, at) ==> exists f :: f in frames && f !in supply && f !in freed
    {
      freed := FreeTables(root, 0, Node(0, 0));
      forall m | m in at
        ensures Under(m, Node(0, 0))
      {
        UnderRoot(mem, root, at, m);
      }
      forall f | f in at.Values
        ensures f in freed
      {
        var m :| m in at && at[m] == f;
        assert Under(m, Node(0, 0));
      }
    }

    /** Where nothing is mapped, no block is in the way. */
    lemma EmptyClear(lo: nat, hi: nat)
      requires Valid() && hi <= VA_LIMIT && Empty(mem, root, lo, hi)
      ensures Clear(mem, at, lo, hi, 3)
    {
      forall v: nat | lo <= v < hi
        ensures PathClear(mem, at, v, 3)
      {
        assert Walk(mem, root, 0, v) == None;
        UnmappedPathClear(mem, root, at, v);
      }
    }

    lemma EmptyHugeClear(va: nat, len: nat)
      requires Valid() && End(va, len) <= VA_LIMIT && Empty(mem, root, va, End(va, len))
      ensures HugeClear(mem, at, va, GiantEnd(va, len), HugeEnd(va, len), End(va, len))
    {
      HugeSizes(len);
      EmptyClear(va, End(va, len));
      ClearSub(mem, at, va, End(va, len), va, GiantEnd(va, len), 1);
      ClearSub(mem, at, va, End(va, len), GiantEnd(va, len), HugeEnd(va, len), 2);
      ClearSub(mem, at, va, End(va, len), HugeEnd(va, len), End(va, len), 3);
    }

    /** Mapping into an empty range and unmapping it again gives back the earlier translation. */
    method MapUnmapHuge(va: nat, pa: nat, len: nat, flags: Flags)
      requires Valid() && HugeAligned(va, pa, len) && End(va, len) <= VA_LIMIT && pa + RoundUp(len) <= PA_LIMIT
      requires |supply| >= |HugeMissing(at.Keys, va, GiantEnd(va, len), HugeEnd(va, len), End(va, len))|
      requires Empty(mem, root, va, End(va, len))
      modifies this`mem, this`at, this`supply
      ensures Valid() && Agree(mem, root, old(mem), root)
    {
      EmptyHugeClear(va, len);
      MapRangeHuge(va, pa, len, flags);
      ghost var m1 := mem;
      UnmapRangeHuge(va, len);
      Undone(old(mem), m1, mem, root, va, End(va, len), Some(Leaf(pa, AttrsFor(flags))));
    }

    /** The same for the 4K mapper. */
    method MapUnmap(va: nat, pa: nat, len: nat, flags: Flags)
      requires Valid() && Aligned(va, 3) && Aligned(pa, 3) && End(va, len) <= VA_LIMIT
               && pa + RoundUp(len) <= PA_LIMIT
      requires |supply| >= |Missing(at.Keys, va, End(va, len), 3)|
      requires Empty(mem, root, va, End(va, len))
      modifies this`mem, this`at, this`supply
      ensures Valid() && Agree(mem, root, old(mem), root)
      ensures Tabled(at, va, End(va, len), 3) && (Tight(mem, at) <==> Tight(old(mem), old(at)))
    {
      EmptyClear(va, End(va, len));
      MapRange(va, pa, len, flags);
      ghost var m1 := mem;
      UnmapRange(va, len);
      Undone(old(mem), m1, mem, root, va, End(va, len), Some(Leaf(pa, AttrsFor(flags))));
    }
  }

  /** Two tables with the same translation still agree everywhere when one maps a range with huge
      entries and the other maps it with 4K entries. */
  method HugeRefines(t: PageTable, u: PageTable, va: nat, pa: nat, len: nat, flags: Flags)
    requires t != u && t.Valid() && u.Valid() && Agree(t.mem, t.root, u.mem, u.root)
    requires HugeAligned(va, pa, len) && End(va, len) <= VA_LIMIT && pa + RoundUp(len) <= PA_LIMIT
    requires HugeClear(t.mem, t.at, va, GiantEnd(va, len), HugeEnd(va, len), End(va, len))
             && Clear(u.mem, u.at, va, End(va, len), 3)
    requires |t.supply| >= |HugeMissing(t.at.Keys, va, GiantEnd(va, len), HugeEnd(va, len), End(va, len))|
             && |u.supply| >= |Missing(u.at.Keys, va, End(va, len), 3)|
    modifies t, u
    ensures t.Valid() && u.Valid() && Agree(t.mem, t.root, u.mem, u.root)
  {
    ghost var m0, u0 := t.mem, u.mem;
    t.MapRangeHuge(va, pa, len, flags);
    u.MapRange(va, pa, len, flags);
    AgreeAfter(m0, t.mem, t.root, u0, u.mem, u.root, va, End(va, len), Some(Leaf(pa, AttrsFor(flags))));
  }

  /** Mapping and unmapping a 4K page at address 0 of a new page table leaves the tables on the way. */
  method TablesLeft(root: nat, supply: seq<nat>, flags: Flags) returns (t: PageTable)
    requires root !in supply && NoDup(supply) && |supply| >= 3 && forall f :: f in supply ==> f < FRAME_LIMIT
    ensures fresh(t) && t.Valid() && NodeOf(0, 1) in t.at && NodeOf(0, 2) in t.at
    ensures Empty(t.mem, t.root, 0, VA_LIMIT)
  {
    t := new PageTable(root, supply);
    ghost var m0 := t.mem;
    EntryLacks(t.at.Keys, 0, End(0, SIZE_4K), 3);
    EmptyPart(m0, t.root, 0, End(0, SIZE_4K));
    t.MapUnmap(0, 0, SIZE_4K, flags);
    StillEmpty(m0, t.mem, t.root);
    assert NodeOf(0, 3) in t.at;
    TableAbove(t.mem, t.root, t.at, 0, 3);
    TableAbove(t.mem, t.root, t.at, 0, 2);
  }

  lemma GiantEnds(va: nat, pa: nat, len: nat, g: nat)
    requires len == SIZE_1G && Aligned(va, 1) && Aligned(pa, 1) && g == va + SIZE_1G
    ensures HugeAligned(va, pa, len) && GiantEnd(va, len) == HugeEnd(va, len) == End(va, len) == g
            && RoundUp(len) == SIZE_1G
  {
    AlignedToo(va);
    AlignedToo(pa);
  }

  lemma AlignedToo(x: nat)
    requires x % SIZE_1G == 0
    ensures x % SIZE_2M == 0 && x % SIZE_4K == 0
  {
    var k := x / SIZE_1G;
    AddHuges(0, k * 512);
    AddPages(0, k * 0x4_0000);
  }

  /** A 1G entry needs the table that holds it and no other. */
  lemma GiantLacks(k: set<Node>, va: nat, g: nat)
    requires Aligned(va, 1) && g == va + SIZE_1G
    ensures HugeMissing(k, va, g, g, g) == Lacks(k, va, 1) && |Lacks(k, va, 1)| <= 1
    ensures NodeOf(va, 1) in k ==> Lacks(k, va, 1) == {}
  {
    EntryLacks(k, va, g, 1);
    NoneMissing(k, g, 2);
    NoneMissing(k, g, 3);
    assert Way(va, 0) == {};
  }

  /** One 1G entry where nothing is mapped.  A table in its place is no part of the tree any more. */
  method MapGiant(t: PageTable, va: nat, pa: nat, len: nat, flags: Flags)
    requires t.Valid() && Aligned(va, 1) && Aligned(pa, 1) && len == SIZE_1G && va + SIZE_1G <= VA_LIMIT
             && pa + SIZE_1G <= PA_LIMIT
    requires NodeOf(va, 1) in t.at || |t.supply| > 0
    requires Empty(t.mem, t.root, va, va + SIZE_1G)
    modifies t`mem, t`at, t`supply
    ensures t.Valid() && t.Query(va) == Some(Leaf(pa, AttrsFor(flags)))
            && NodeOf(va, 1) in t.at && NodeOf(va, 2) !in t.at
    ensures NodeOf(va, 2) in old(t.at) ==> !Tight(t.mem, t.at)
  {
    ghost var g := va + SIZE_1G;
    GiantEnds(va, pa, len, g);
    GiantLacks(t.at.Keys, va, g);
    t.EmptyHugeClear(va, len);
    t.MapRangeHuge(va, pa, len, flags);
  }

  /** A table page gets lost: after this, free_page_table does not find the pages below the entry. */
  method LostTable(root: nat, supply: seq<nat>, flags: Flags) returns (t: PageTable, freed: seq<nat>)
    requires root !in supply && NoDup(supply) && |supply| >= 3 && forall f :: f in supply ==> f < FRAME_LIMIT
    ensures t.Valid() && !Tight(t.mem, t.at)
    ensures exists f :: f in t.frames && f !in t.supply && f !in freed
  {
    t := TablesLeft(root, supply, flags);
    EmptyPart(t.mem, t.root, 0, SIZE_1G);
    MapGiant(t, 0, 0, SIZE_1G, flags);
    freed := t.FreePageTable();
  }

  /** Memory gets taken for a table: below a 1G entry, the 4K mapper goes on in a page of the memory that is mapped
      there, and this is none of the table pages if the mapping is not one of table pages. */
  method BlockTakenForTable(root: nat, supply: seq<nat>, pa: nat, flags: Flags) returns (t: PageTable, frame: nat)
    requires root !in supply && NoDup(supply) && |supply| >= 1 && forall f :: f in supply ==> f < FRAME_LIMIT
    requires Aligned(pa, 1) && pa + SIZE_1G <= PA_LIMIT
             && forall f: nat :: f == root || f in supply ==> f * SIZE_4K / SIZE_1G != pa / SIZE_1G
    ensures t.Valid() && t.Query(0) == Some(Leaf(pa, AttrsFor(flags)))
    ensures frame * SIZE_4K / SIZE_1G == pa / SIZE_1G && frame !in t.mem
  {
    t := new PageTable(root, supply);
    EmptyPart(t.mem, t.root, 0, SIZE_1G);
    MapGiant(t, 0, pa, SIZE_1G, flags);
    var kind;
    BlockThere(t.mem, t.root, t.at, 0);
    kind, frame := t.LevelTwo(0);
  }

  /** A table hangs below a table of the level above. */
  lemma TableAbove(mem: Mem, root: nat, at: Layout, va: nat, level: nat)
    requires Tree(mem, root, at) && va < VA_LIMIT && 0 < level <= 3 && NodeOf(va, level) in at
    ensures NodeOf(va, level - 1) in at
  {
    PrefixStep(va, level - 1);
    assert Parent(NodeOf(va, level)) == NodeOf(va, level - 1);
  }

  // ------------------------------------------------------------------------------ freeing the tree

  /** Below one of the first `k` children of `n`. */
  predicate UnderFirst(m: Node, n: Node, k: nat) {
    m.level > n.level && Under(m, n) && AncestorAt(m, n.level + 1).prefix < n.prefix * ENTRIES + k
  }

  ghost function BelowFirst(at: Layout, n: Node, k: nat): set<nat> {
    set m | m in at && UnderFirst(m, n, k) :: at[m]
  }

  lemma UnderNext(m: Node, n: Node, i: nat)
    requires i < ENTRIES
    ensures UnderFirst(m, n, i + 1) <==> UnderFirst(m, n, i) || Under(m, Child(n, i))
    ensures !(UnderFirst(m, n, i) && Under(m, Child(n, i)))
  {
    if m.level > n.level {
      AncestorUp(m, n.level);
    }
  }

  lemma BelowNext(mem: Mem, root: nat, at: Layout, n: Node, i: nat)
    requires Tree(mem, root, at) && i < ENTRIES
    ensures var sub := set m | m in at && Under(m, Child(n, i)) :: at[m];
            && BelowFirst(at, n, i + 1) == BelowFirst(at, n, i) + sub
            && BelowFirst(at, n, i) !! sub
            && (Child(n, i) !in at ==> sub == {})
  {
    forall m | m in at
      ensures UnderFirst(m, n, i + 1) <==> UnderFirst(m, n, i) || Under(m, Child(n, i))
      ensures !(UnderFirst(m, n, i) && Under(m, Child(n, i)))
      ensures Under(m, Child(n, i)) ==> Child(n, i) in at
    {
      UnderNext(m, n, i);
      TopThere(mem, root, at, m, Child(n, i));
    }
  }

  lemma BelowAll(at: Layout, n: Node)
    requires n in at
    ensures (set m | m in at && Under(m, n) :: at[m]) == BelowFirst(at, n, ENTRIES) + {at[n]}
    ensures BelowFirst(at, n, 0) == {}
  {
    forall m | m in at && Under(m, n)
      ensures m == n || UnderFirst(m, n, ENTRIES)
      ensures !UnderFirst(m, n, 0)
    {
      if m.level > n.level {
        AncestorUp(m, n.level);
      }
    }
  }

  lemma {:induction false} UnderRoot(mem: Mem, root: nat, at: Layout, m: Node)
    requires Tree(mem, root, at) && m in at
    ensures Under(m, Node(0, 0))
    decreases m.level
  {
    if m.level > 0 {
      UnderRoot(mem, root, at, Parent(m));
    }
  }

  /** Mapping 4K entries leads past no block that was not there. */
  lemma ProgressClear(m0: Mem, a0: Layout, m1: Mem, a1: Layout, root: nat, va: nat, stop: nat, r: Option<Leaf>)
    requires Progress(m0, a0, m1, a1, root, va, stop, 3, r) && Tree(m1, root, a1) && Clear(m0, a0, 0, VA_LIMIT, 3)
    ensures Clear(m1, a1, 0, VA_LIMIT, 3)
  {
    forall v: nat | v < VA_LIMIT
      ensures PathClear(m1, a1, v, 3)
    {
      assert PathClear(m0, a0, v, 3);
      if va <= v < stop {
        assert Set(m1, a1, root, 3, va, r, v);
        TabledClear(m1, root, a1, v);
      } else {
        assert Kept(m0, a0, m1, a1, root, 3, v);
      }
    }
  }

  /** No block is on the way to a table. */
  lemma TabledClear(mem: Mem, root: nat, at: Layout, va: nat)
    requires Tree(mem, root, at) && va < VA_LIMIT && NodeOf(va, 3) in at
    ensures PathClear(mem, at, va, 3)
  {
    TableAbove(mem, root, at, va, 3);
    TableAbove(mem, root, at, va, 2);
    TableAbove(mem, root, at, va, 1);
    forall l: nat | l < 3
      ensures EntryAt(mem, at, va, l).table
    {
      PrefixStep(va, l);
      assert NodeOf(va, l) in at && NodeOf(va, l + 1) in at;
      assert LinkOk(mem, at, NodeOf(va, l), Index(va, l));
    }
  }

  lemma ProgressQuery(m0: Mem, a0: Layout, m1: Mem, a1: Layout, root: nat, va: nat, stop: nat, level: nat,
                      r: Option<Leaf>)
    requires Progress(m0, a0, m1, a1, root, va, stop, level, r) && Shallow(a0)
    ensures Remapped(m0, m1, root, va, stop, r)
    ensures Tabled(a1, va, stop, level) || VA_LIMIT < stop
    ensures level == 3 ==> (Tight(m1, a1) <==> Tight(m0, a0))
  {
    forall v: nat | v < VA_LIMIT
      ensures Walk(m1, root, 0, v) == if va <= v < stop then Shift(r, va, v) else Walk(m0, root, 0, v)
    {
      if va <= v < stop {
        assert Set(m1, a1, root, level, va, r, v);
      } else {
        assert Kept(m0, a0, m1, a1, root, level, v);
      }
    }
    forall v: nat | va <= v < stop && v < VA_LIMIT
      ensures NodeOf(v, level) in a1
    {
      assert Set(m1, a1, root, level, va, r, v);
    }
  }

  /** What a mapping of [va, stop) with 4K entries comes to. */
  ghost predicate Mapped(m0: Mem, a0: Layout, m1: Mem, a1: Layout, root: nat, va: nat, stop: nat, r: Option<Leaf>) {
    && Remapped(m0, m1, root, va, stop, r)
    && Tabled(a1, va, stop, 3) && (Clear(m0, a0, 0, VA_LIMIT, 3) ==> Clear(m1, a1, 0, VA_LIMIT, 3))
    && (Tight(m1, a1) <==> Tight(m0, a0))
  }

  lemma RangeMapped(m0: Mem, a0: Layout, m1: Mem, a1: Layout, root: nat, va: nat, stop: nat, r: Option<Leaf>)
    requires Progress(m0, a0, m1, a1, root, va, stop, 3, r) && Shallow(a0) && Tree(m1, root, a1) && stop <= VA_LIMIT
    ensures Mapped(m0, a0, m1, a1, root, va, stop, r)
  {
    ProgressQuery(m0, a0, m1, a1, root, va, stop, 3, r);
    if Clear(m0, a0, 0, VA_LIMIT, 3) {
      ProgressClear(m0, a0, m1, a1, root, va, stop, r);
    }
  }

  lemma HugeQuery(m0: Mem, a0: Layout, m1: Mem, a1: Layout, root: nat, va: nat, g: nat, h: nat, end: nat,
                  r: Option<Leaf>)
    requires HugeProgress(m0, a0, m1, a1, root, va, g, h, end, r) && va <= g <= h <= end <= VA_LIMIT
    ensures Remapped(m0, m1, root, va, end, r)
    ensures HugeTabled(a1, va, g, h, end)
  {
    forall v: nat | v < VA_LIMIT
      ensures Walk(m1, root, 0, v) == if va <= v < end then Shift(r, va, v) else Walk(m0, root, 0, v)
    {
      if va <= v < end {
        assert Set(m1, a1, root, LevelFor(g, h, v), va, r, v);
      } else {
        assert Kept(m0, a0, m1, a1, root, 3, v);
      }
    }
    forall v: nat | va <= v < g
      ensures NodeOf(v, 1) in a1
    {
      assert Set(m1, a1, root, LevelFor(g, h, v), va, r, v);
    }
    forall v: nat | g <= v < h
      ensures NodeOf(v, 2) in a1
    {
      assert Set(m1, a1, root, LevelFor(g, h, v), va, r, v);
    }
    forall v: nat | h <= v < end
      ensures NodeOf(v, 3) in a1
    {
      assert Set(m1, a1, root, LevelFor(g, h, v), va, r, v);
    }
  }

  lemma {:induction false} PathThere(mem: Mem, root: nat, at: Layout, va: nat, level: nat, depth: nat)
    requires Tree(mem, root, at) && va < VA_LIMIT && level <= depth <= 3 && NodeOf(va, depth) in at
    ensures NodeOf(va, level) in at
    decreases depth
  {
    if level < depth {
      PrefixStep(va, depth - 1);
      assert Parent(NodeOf(va, depth)) == NodeOf(va, depth - 1);
      PathThere(mem, root, at, va, level, depth - 1);
    }
  }
}
