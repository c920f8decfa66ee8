/** Demand paging: address spaces made of regions, each backed by a memory object, whose pages are
    allocated and mapped when they are first touched. */
module DemandPaging {
  import opened Common
  import opened PageTableSteps

  /** PMO_ANONYM and PMO_SHM; PMO_DATA; PMO_DATA_NOCACHE; PMO_DEVICE; PMO_FORBID. */
  datatype Kind = Lazy | Data | Nocache | Device | Forbid
  {
    /** Its pages are there from the start and mapped at once. */
    predicate Prepared() {
      this == Data || this == Nocache || this == Device
    }

    /** Its pages are memory of its own. */
    predicate Owns() {
      this == Lazy || this == Data || this == Nocache
    }
  }

  /** A memory object of `pages` pages: for the lazy kinds the frames committed so far, by index; for the prepared
      ones the first of consecutive frames. */
  datatype Pmo = Pmo(kind: Kind, pages: nat, start: nat, radix: map<nat, nat>)
  {
    /** The frame that the object records for page `i`. */
    function Frame(i: nat): Option<nat> {
      if kind == Lazy then (if i in radix then Some(radix[i]) else None)
      else if kind.Prepared() && i < pages then Some(start + i) else None
    }
  }

  /** A region of `size` bytes from a page boundary on. */
  datatype Region = Region(start: nat, size: nat, perm: Flags, pmo: nat)
  {
    predicate Has(addr: nat) {
      start <= addr < start + size
    }

    /** Page number `p` is one of the region's. */
    predicate HasPage(p: nat) {
      start / PAGE_SIZE <= p && p * PAGE_SIZE < start + size
    }
  }

  datatype Entry = Entry(frame: nat, perm: Flags)

  /** `table` is what the page table translates, by page number. */
  datatype Space = Space(regions: seq<Region>, table: map<nat, Entry>)

  datatype State = State(pmos: seq<Pmo>, spaces: seq<Space>)

  // ------------------------------------------------------------------------------------------ regions

  /** check_vmr_intersect: it compares the last byte of the new region with the first of the old. */
  predicate Collides(r: Region, q: Region) {
    r.size != 0 && !(r.start >= q.start + q.size || r.start + r.size - 1 <= q.start)
  }

  predicate Disjoint(r: Region, q: Region) {
    r.start + r.size <= q.start || q.start + q.size <= r.start
  }

  /** The comparison tells whether the new region `r` overlaps `q`, except when `r` is empty and inside `q`, and when
      the last byte of `r` is the first of `q`. */
  lemma CollidesExact(r: Region, q: Region)
    ensures (Collides(r, q) <==> !Disjoint(r, q)) <==>
            if r.size == 0 then !(q.start < r.start < q.start + q.size)
              else !(r.start + r.size == q.start + 1 && r.start < q.start + q.size)
  {
  }

  /** A region whose last byte is the first of another is let in. */
  lemma OneByteMissed(perm: Flags)
    ensures !Collides(Region(0, 4097, perm, 0), Region(4096, 4096, perm, 0))
    ensures !Disjoint(Region(0, 4097, perm, 0), Region(4096, 4096, perm, 0))
  {
  }

  /** For regions of whole pages it is exact. */
  lemma CollidesAligned(r: Region, q: Region)
    requires r.start % PAGE_SIZE == 0 && r.size % PAGE_SIZE == 0 && q.start % PAGE_SIZE == 0 && r.size > 0
    ensures Collides(r, q) <==> !Disjoint(r, q)
  {
  }

  /** The loop of add_vmr_to_vmspace over the regions that are there. */
  method CheckIntersect(regions: seq<Region>, r: Region) returns (hit: bool)
    ensures hit <==> exists j :: 0 <= j < |regions| && Collides(r, regions[j])
  {
    hit := false;
    if r.size == 0 {
      return;
    }
    for i := 0 to |regions|
      invariant forall j :: 0 <= j < i ==> !Collides(r, regions[j])
    {
      var q := regions[i];
      if !(r.start >= q.start + q.size || r.start + r.size - 1 <= q.start) {
        assert Collides(r, regions[i]);
        return true;
      }
    }
  }

  /** find_vmr_for_va. */
  method FindRegion(regions: seq<Region>, addr: nat) returns (r: Option<nat>)
    ensures r == Find(regions, addr)
  {
    for i := 0 to |regions|
      invariant Find(regions, addr) == match Find(regions[i..], addr) { case None => None case Some(j) => Some(i + j) }
    {
      assert regions[i..][1..] == regions[i + 1..];
      if regions[i].start <= addr && addr < regions[i].start + regions[i].size {
        return Some(i);
      }
    }
    return None;
  }

  function Find(regions: seq<Region>, addr: nat): (r: Option<nat>)
    ensures r.None? <==> forall j :: 0 <= j < |regions| ==> !regions[j].Has(addr)
    ensures r.Some? ==> r.value < |regions| && regions[r.value].Has(addr)
  {
    if regions == [] then None
    else if regions[0].Has(addr) then Some(0)
    else match Find(regions[1..], addr) { case None => None case Some(j) => Some(j + 1) }
  }

  // ---------------------------------------------------------------------------------------- the steps

  datatype Event =
    | NewSpace
    | NewPmo(kind: Kind, pages: nat, start: nat)
    | MapRange(a: nat, va: nat, len: nat, perm: Flags, pmo: nat)
    | Commit(pmo: nat, index: nat, frame: nat)   // commit_page_to_pmo from outside the fault handler
    | Fault(a: nat, addr: nat, frame: nat)       // `frame` is the one that the page allocator would return

  /** No memory object that owns its pages has frame `f`. */
  ghost predicate FreshFrame(s: State, f: nat) {
    f > 0 && forall o: nat, i: nat :: o < |s.pmos| && s.pmos[o].kind.Owns() && s.pmos[o].Frame(i) == Some(f) ==> false
  }

  /** The region that vmspace_map_range makes: at least a page long, from a page boundary on. */
  function NewRegion(va: nat, len: nat, perm: Flags, kind: Kind, o: nat): Region {
    Region(va - va % PAGE_SIZE, if len < PAGE_SIZE then PAGE_SIZE else len,
           perm.(device := perm.device || kind == Device, nocache := perm.nocache || kind == Nocache), o)
  }

  /** Address `addr` is one of those that a mapping of `len` bytes from `va` on asks for: whole pages from the one of
      `va`, and one page at least. */
  predicate Asked(va: nat, len: nat, addr: nat) {
    va / PAGE_SIZE * PAGE_SIZE <= addr < va / PAGE_SIZE * PAGE_SIZE + if len < PAGE_SIZE then PAGE_SIZE else len
  }

  /** The new list has one region more, in front: exactly the addresses asked for are found there, with the object and
      the permissions asked for, and every other address is found where it was found before. */
  ghost predicate Placed(before: seq<Region>, after: seq<Region>, va: nat, len: nat, perm: Flags, kind: Kind, o: nat) {
    && |after| == |before| + 1 && after[1..] == before && after[0].pmo == o
    && after[0].perm.write == perm.write && after[0].perm.exec == perm.exec
    && (after[0].perm.device <==> perm.device || kind == Device)
    && (after[0].perm.nocache <==> perm.nocache || kind == Nocache)
    && forall addr: nat :: Find(after, addr) == if Asked(va, len, addr) then Some(0) else OneOn(Find(before, addr))
  }

  function OneOn(j: Option<nat>): Option<nat> {
    match j { case None => None case Some(k) => Some(k + 1) }
  }

  /** The range that is asked for and region `q`, as check_vmr_intersect compares them. */
  predicate Refused(va: nat, len: nat, q: Region) {
    var first, n := va / PAGE_SIZE * PAGE_SIZE, if len < PAGE_SIZE then PAGE_SIZE else len;
    first < q.start + q.size && q.start < first + n - 1
  }

  lemma NewRegionPlaced(before: seq<Region>, va: nat, len: nat, perm: Flags, kind: Kind, o: nat)
    ensures var r := NewRegion(va, len, perm, kind, o);
            && Placed(before, [r] + before, va, len, perm, kind, o)
            && forall q :: Collides(r, q) <==> Refused(va, len, q)
  {
    var r := NewRegion(va, len, perm, kind, o);
    assert va - va % PAGE_SIZE == va / PAGE_SIZE * PAGE_SIZE;
    forall addr: nat
      ensures Find([r] + before, addr) == if Asked(va, len, addr) then Some(0) else OneOn(Find(before, addr))
    {
      assert ([r] + before)[1..] == before;
    }
  }

  function EventRegion(s: State, e: Event): Region
    requires e.MapRange? && e.pmo < |s.pmos|
  {
    NewRegion(e.va, e.len, e.perm, s.pmos[e.pmo].kind, e.pmo)
  }

  /** What callers and the allocators provide; a region that collides with another stops the kernel. */
  ghost predicate Enabled(s: State, e: Event) {
    match e
    case NewSpace => true
    case NewPmo(kind, pages, start) =>
      kind == Data || kind == Nocache ==> forall f: nat :: start <= f < start + pages ==> FreshFrame(s, f)
    case MapRange(a, va, len, perm, o) =>
      a < |s.spaces| && o < |s.pmos| && NoCollision(s.spaces[a], EventRegion(s, e))
    case Commit(o, index, frame) =>
      o < |s.pmos| && s.pmos[o].kind == Lazy && index !in s.pmos[o].radix && FreshFrame(s, frame)
    case Fault(a, addr, frame) => a < |s.spaces| && (NeedsPage(s, a, addr) ==> FreshFrame(s, frame))
  }

  /** The fault handler asks the page allocator for a page. */
  predicate NeedsPage(s: State, a: nat, addr: nat)
    requires a < |s.spaces|
  {
    match Find(s.spaces[a].regions, addr)
    case None => false
    case Some(j) =>
      var r := s.spaces[a].regions[j];
      Resolvable(s, r, addr) && IndexOf(r, addr) !in s.pmos[r.pmo].radix
  }

  ghost predicate NoCollision(x: Space, r: Region) {
    forall j :: 0 <= j < |x.regions| ==> !Collides(r, x.regions[j])
  }

  /** Translations for `n` pages from `p` on, to consecutive frames. */
  function Run(p: nat, n: nat, frame: nat, perm: Flags): (t: map<nat, Entry>)
    ensures forall q: nat :: (q in t <==> p <= q < p + n) && (q in t ==> t[q] == Entry(frame + (q - p), perm))
  {
    if n == 0 then map[] else Run(p, n - 1, frame, perm)[p + n - 1 := Entry(frame + n - 1, perm)]
  }

  function Record(s: State, o: nat, index: nat, frame: nat): State
    requires o < |s.pmos|
  {
    s.(pmos := s.pmos[o := s.pmos[o].(radix := s.pmos[o].radix[index := frame])])
  }

  function PutSpace(s: State, a: nat, x: Space): State
    requires a < |s.spaces|
  {
    s.(spaces := s.spaces[a := x])
  }

  /** What fill_page_table adds: all pages of an object that is prepared, however long the region is. */
  function Filling(s: State, r: Region): map<nat, Entry>
    requires r.pmo < |s.pmos|
  {
    var o := s.pmos[r.pmo];
    if o.kind.Prepared() then Run(r.start / PAGE_SIZE, o.pages, o.start, r.perm) else map[]
  }

  /** vmspace_map_range: the new region goes to the front; objects with prepared pages are mapped at once. */
  function AddRegion(s: State, a: nat, r: Region): State
    requires a < |s.spaces| && r.pmo < |s.pmos|
  {
    PutSpace(s, a, Space([r] + s.spaces[a].regions, s.spaces[a].table + Filling(s, r)))
  }

  /** The index of the page of `addr` in the object of region `r`. */
  function IndexOf(r: Region, addr: nat): nat
    requires r.start <= addr
  {
    (addr - addr % PAGE_SIZE - (r.start - r.start % PAGE_SIZE)) / PAGE_SIZE
  }

  /** handle_trans_fault for an address in region `r` of a lazy object. */
  function Resolve(s: State, a: nat, r: Region, addr: nat, frame: nat): State
    requires a < |s.spaces| && r.pmo < |s.pmos| && r.start <= addr
  {
    var i := IndexOf(r, addr);
    var s' := if i in s.pmos[r.pmo].radix then s else Record(s, r.pmo, i, frame);
    PutSpace(s', a,
             s'.spaces[a].(table := s'.spaces[a].table[addr / PAGE_SIZE := Entry(s'.pmos[r.pmo].radix[i], r.perm)]))
  }

  /** The fault handler can resolve the fault: its object commits pages on demand, and has that page.  Otherwise the
      kernel stops. */
  predicate Resolvable(s: State, r: Region, addr: nat) {
    r.start <= addr && r.pmo < |s.pmos| && s.pmos[r.pmo].kind == Lazy && IndexOf(r, addr) < s.pmos[r.pmo].pages
  }

  ghost function Step(s: State, e: Event): State
    requires Enabled(s, e)
  {
    match e
    case NewSpace => s.(spaces := s.spaces + [Space([], map[])])
    case NewPmo(kind, pages, start) => s.(pmos := s.pmos + [Pmo(kind, pages, start, map[])])
    case MapRange(a, va, len, perm, o) => AddRegion(s, a, EventRegion(s, e))
    case Commit(o, index, frame) => Record(s, o, index, frame)
    case Fault(a, addr, frame) =>
      match Find(s.spaces[a].regions, addr)
      case None => s
      case Some(j) =>
        var r := s.spaces[a].regions[j];
        if Resolvable(s, r, addr) then Resolve(s, a, r, addr, frame) else s
  }

  // -------------------------------------------------------------------------------------- the invariant

  predicate RegionOk(s: State, r: Region) {
    r.start % PAGE_SIZE == 0 && r.size > 0 && r.pmo < |s.pmos|
  }

  /** Page `p` of region `r` is translated to what its object records for it. */
  predicate Agrees(s: State, r: Region, p: nat, e: Entry) {
    r.HasPage(p) && r.pmo < |s.pmos| && s.pmos[r.pmo].Frame(p - r.start / PAGE_SIZE) == Some(e.frame)
    && e.perm == r.perm
  }

  ghost predicate BackedBy(s: State, regions: seq<Region>, p: nat, e: Entry) {
    exists j :: 0 <= j < |regions| && Agrees(s, regions[j], p, e)
  }

  ghost predicate Apart(regions: seq<Region>) {
    forall j, k :: 0 <= j < k < |regions| ==> Disjoint(regions[j], regions[k])
  }

  ghost predicate SpaceOk(s: State, x: Space) {
    && (forall j :: 0 <= j < |x.regions| ==> RegionOk(s, x.regions[j]))
    && Apart(x.regions)
    && (forall p :: p in x.table ==> BackedBy(s, x.regions, p, x.table[p]))
  }

  /** Two objects that own their pages, or two pages of one, never have the same frame. */
  ghost predicate FramesDiffer(s: State) {
    forall o: nat, i: nat, o': nat, i': nat {:trigger s.pmos[o].Frame(i), s.pmos[o'].Frame(i')} ::
      (o < |s.pmos| && o' < |s.pmos| && s.pmos[o].kind.Owns() && s.pmos[o'].kind.Owns()
       && s.pmos[o].Frame(i).Some? && s.pmos[o].Frame(i) == s.pmos[o'].Frame(i')) ==> o == o' && i == i'
  }

  ghost predicate Coherent(s: State) {
    && (forall a :: 0 <= a < |s.spaces| ==> SpaceOk(s, s.spaces[a]))
    && FramesDiffer(s)
    && (forall o: nat, i: nat :: o < |s.pmos| && i in s.pmos[o].radix ==>
          s.pmos[o].kind == Lazy && s.pmos[o].radix[i] > 0)
  }

  // ------------------------------------------------------------------------------------------ each step

  /** What every step keeps of the memory objects: a committed page is never replaced. */
  ghost predicate Grows(s: State, s': State) {
    && |s.pmos| <= |s'.pmos|
    && forall o: nat :: o < |s.pmos| ==>
         && s'.pmos[o].kind == s.pmos[o].kind && s'.pmos[o].pages == s.pmos[o].pages
            && s'.pmos[o].start == s.pmos[o].start
         && forall i :: i in s.pmos[o].radix ==> i in s'.pmos[o].radix && s'.pmos[o].radix[i] == s.pmos[o].radix[i]
  }

  /** Spaces that are not touched stay right when objects only grow. */
  lemma SpaceKept(s: State, s': State, x: Space)
    requires SpaceOk(s, x) && Grows(s, s')
    ensures SpaceOk(s', x)
  {
    forall j | 0 <= j < |x.regions|
      ensures RegionOk(s', x.regions[j])
    {
      assert RegionOk(s, x.regions[j]);
    }
    forall p | p in x.table
      ensures BackedBy(s', x.regions, p, x.table[p])
    {
      assert BackedBy(s, x.regions, p, x.table[p]);
      var j :| 0 <= j < |x.regions| && Agrees(s, x.regions[j], p, x.table[p]);
      AgreesKept(s, s', x.regions[j], p, x.table[p]);
    }
  }

  lemma AgreesKept(s: State, s': State, r: Region, p: nat, e: Entry)
    requires Agrees(s, r, p, e) && Grows(s, s')
    ensures Agrees(s', r, p, e)
  {
  }

  lemma RecordGood(s: State, o: nat, index: nat, frame: nat)
    requires Coherent(s) && o < |s.pmos| && s.pmos[o].kind == Lazy && index !in s.pmos[o].radix && FreshFrame(s, frame)
    ensures Coherent(Record(s, o, index, frame)) && Grows(s, Record(s, o, index, frame))
  {
    var s' := Record(s, o, index, frame);
    forall a | 0 <= a < |s'.spaces|
      ensures SpaceOk(s', s'.spaces[a])
    {
      SpaceKept(s, s', s.spaces[a]);
    }
    assert forall p: nat, i: nat :: p < |s.pmos| ==>
             s'.pmos[p].Frame(i) == if p == o && i == index then Some(frame) else s.pmos[p].Frame(i);
    FreshDiffers(s, s', o, index, frame);
  }

  lemma FreshDiffers(s: State, s': State, o: nat, index: nat, frame: nat)
    requires FramesDiffer(s) && FreshFrame(s, frame) && |s'.pmos| == |s.pmos|
    requires forall p: nat, i: nat :: p < |s.pmos| ==>
               s'.pmos[p].Frame(i) == if p == o && i == index then Some(frame) else s.pmos[p].Frame(i)
    requires forall p: nat :: p < |s.pmos| ==> s'.pmos[p].kind == s.pmos[p].kind
    ensures FramesDiffer(s')
  {
  }

  /** The last byte of the new region is not the first of another, and pages of its object that lie beyond the region
      are translated as a region there says. */
  ghost predicate Harmless(s: State, a: nat, r: Region)
    requires a < |s.spaces| && r.pmo < |s.pmos|
  {
    && (forall j :: 0 <= j < |s.spaces[a].regions| ==> r.start + r.size != s.spaces[a].regions[j].start + 1)
    && (forall p :: p in Filling(s, r) && !r.HasPage(p) ==> BackedBy(s, s.spaces[a].regions, p, Filling(s, r)[p]))
  }

  /** Whether mapping keeps the spaces coherent: exactly if it is harmless. */
  lemma AddRegionExact(s: State, a: nat, r: Region)
    requires Coherent(s) && a < |s.spaces| && RegionOk(s, r) && NoCollision(s.spaces[a], r)
    ensures Coherent(AddRegion(s, a, r)) <==> Harmless(s, a, r)
    ensures AddRegion(s, a, r).spaces[a].regions == [r] + s.spaces[a].regions && AddRegion(s, a, r).pmos == s.pmos
  {
    var s', x := AddRegion(s, a, r), s.spaces[a];
    assert SpaceOk(s, x);
    if Harmless(s, a, r) {
      AddedSpace(s, a, r);
      forall b | 0 <= b < |s'.spaces|
        ensures SpaceOk(s', s'.spaces[b])
      {
        assert b != a ==> s'.spaces[b] == s.spaces[b];
        if b != a {
          SpaceKept(s, s', s.spaces[b]);
        } else {
          SpaceKept(s, s', s'.spaces[a]);
        }
      }
    }
    if Coherent(s') {
      assert SpaceOk(s', s'.spaces[a]);
      CoherentHarmless(s, a, r);
    }
  }

  lemma AddedSpace(s: State, a: nat, r: Region)
    requires Coherent(s) && a < |s.spaces| && RegionOk(s, r) && NoCollision(s.spaces[a], r) && Harmless(s, a, r)
    ensures SpaceOk(s, AddRegion(s, a, r).spaces[a])
  {
    var x, x' := s.spaces[a], AddRegion(s, a, r).spaces[a];
    assert SpaceOk(s, x);
    forall j | 0 <= j < |x'.regions|
      ensures RegionOk(s, x'.regions[j])
    {
      assert j > 0 ==> RegionOk(s, x.regions[j - 1]);
    }
    forall j, k | 0 <= j < k < |x'.regions|
      ensures Disjoint(x'.regions[j], x'.regions[k])
    {
      if j == 0 {
        assert !Collides(r, x.regions[k - 1]);
        assert r.start + r.size != x.regions[k - 1].start + 1;
        CollidesExact(r, x.regions[k - 1]);
      } else {
        assert Disjoint(x.regions[j - 1], x.regions[k - 1]);
      }
    }
    forall p | p in x'.table
      ensures BackedBy(s, x'.regions, p, x'.table[p])
    {
      if p in Filling(s, r) && r.HasPage(p) {
        assert Agrees(s, x'.regions[0], p, x'.table[p]);
      } else {
        assert BackedBy(s, x.regions, p, x'.table[p]);
        BackedMore(s, r, x.regions, p, x'.table[p]);
      }
    }
  }

  lemma BackedMore(s: State, r: Region, regions: seq<Region>, p: nat, e: Entry)
    requires BackedBy(s, regions, p, e)
    ensures BackedBy(s, [r] + regions, p, e)
  {
    var j :| 0 <= j < |regions| && Agrees(s, regions[j], p, e);
    assert Agrees(s, ([r] + regions)[j + 1], p, e);
  }

  lemma CoherentHarmless(s: State, a: nat, r: Region)
    requires a < |s.spaces| && RegionOk(s, r) && NoCollision(s.spaces[a], r) && SpaceOk(s, s.spaces[a])
    requires SpaceOk(AddRegion(s, a, r), AddRegion(s, a, r).spaces[a])
    ensures Harmless(s, a, r)
  {
    var s', x, x' := AddRegion(s, a, r), s.spaces[a], AddRegion(s, a, r).spaces[a];
    assert x'.regions == [r] + x.regions && s'.pmos == s.pmos;
    ApartEnds(x.regions, r);
    forall p | p in Filling(s, r) && !r.HasPage(p)
      ensures BackedBy(s, x.regions, p, Filling(s, r)[p])
    {
      assert x'.table[p] == Filling(s, r)[p];
      assert BackedBy(s', x'.regions, p, x'.table[p]);
      BackedElsewhere(s', s, r, x.regions, p, x'.table[p]);
    }
  }

  lemma ApartEnds(regions: seq<Region>, r: Region)
    requires Apart([r] + regions) && r.size > 0 && forall j :: 0 <= j < |regions| ==> regions[j].size > 0
    ensures forall j :: 0 <= j < |regions| ==> r.start + r.size != regions[j].start + 1
  {
    forall j | 0 <= j < |regions|
      ensures r.start + r.size != regions[j].start + 1
    {
      var all := [r] + regions;
      assert Disjoint(all[0], all[j + 1]);
    }
  }

  lemma BackedElsewhere(s': State, s: State, r: Region, regions: seq<Region>, p: nat, e: Entry)
    requires BackedBy(s', [r] + regions, p, e) && s'.pmos == s.pmos && !r.HasPage(p)
    ensures BackedBy(s, regions, p, e)
  {
    var j :| 0 <= j < |[r] + regions| && Agrees(s', ([r] + regions)[j], p, e);
    assert Agrees(s, regions[j - 1], p, e);
  }

  /** A region that is as long as its object, up to the last page, and ends on a page or before the next, is
      harmless. */
  lemma WholeIsHarmless(s: State, a: nat, r: Region)
    requires Coherent(s) && a < |s.spaces| && RegionOk(s, r) && r.size % PAGE_SIZE != 1
             && s.pmos[r.pmo].pages * PAGE_SIZE < r.size + PAGE_SIZE
    ensures Harmless(s, a, r)
  {
    forall j | 0 <= j < |s.spaces[a].regions|
      ensures r.start + r.size != s.spaces[a].regions[j].start + 1
    {
      assert SpaceOk(s, s.spaces[a]) && RegionOk(s, s.spaces[a].regions[j]);
    }
  }

  /** A mapping that is longer than its region puts translations where no region is: here two pages for a region of
      one. */
  lemma SpillSeen(perm: Flags)
    ensures var s := State([Pmo(Data, 2, 5, map[])], [Space([], map[])]);
            var r := Region(0, PAGE_SIZE, perm, 0);
            Coherent(s) && RegionOk(s, r) && NoCollision(s.spaces[0], r) && !Harmless(s, 0, r)
            && !Coherent(AddRegion(s, 0, r))
  {
    var s := State([Pmo(Data, 2, 5, map[])], [Space([], map[])]);
    var r := Region(0, PAGE_SIZE, perm, 0);
    assert 1 in Filling(s, r) && !r.HasPage(1);
    AddRegionExact(s, 0, r);
  }

  lemma ResolveGood(s: State, a: nat, j: nat, addr: nat, frame: nat)
    requires Coherent(s) && a < |s.spaces| && j < |s.spaces[a].regions| && s.spaces[a].regions[j].Has(addr)
    requires var r := s.spaces[a].regions[j];
             Resolvable(s, r, addr) && (IndexOf(r, addr) !in s.pmos[r.pmo].radix ==> FreshFrame(s, frame))
    ensures var r := s.spaces[a].regions[j];
            Coherent(Resolve(s, a, r, addr, frame)) && Grows(s, Resolve(s, a, r, addr, frame))
  {
    var r := s.spaces[a].regions[j];
    assert SpaceOk(s, s.spaces[a]) && RegionOk(s, r);
    var i, p := IndexOf(r, addr), addr / PAGE_SIZE;
    PageIndex(r, addr);
    var s1 := if i in s.pmos[r.pmo].radix then s else Record(s, r.pmo, i, frame);
    if i !in s.pmos[r.pmo].radix {
      RecordGood(s, r.pmo, i, frame);
    }
    var s' := Resolve(s, a, r, addr, frame);
    var x, x' := s1.spaces[a], s'.spaces[a];
    assert SpaceOk(s1, x);
    forall q | q in x'.table
      ensures BackedBy(s', x'.regions, q, x'.table[q])
    {
      if q == p {
        assert Agrees(s', x'.regions[j], p, x'.table[p]);
      } else {
        assert BackedBy(s1, x.regions, q, x.table[q]);
        var k :| 0 <= k < |x.regions| && Agrees(s1, x.regions[k], q, x.table[q]);
        assert Agrees(s', x'.regions[k], q, x'.table[q]);
      }
    }
    forall b | 0 <= b < |s'.spaces|
      ensures SpaceOk(s', s'.spaces[b])
    {
      assert SpaceOk(s1, s1.spaces[b]);
      if b != a {
        SpaceKept(s1, s', s1.spaces[b]);
      } else {
        assert forall k :: 0 <= k < |x.regions| ==> RegionOk(s1, x.regions[k]);
      }
    }
  }

  /** Only page `p` of space `a` may be translated differently, and the regions are the same. */
  ghost predicate OnlyPage(s: State, s': State, a: nat, p: nat) {
    && |s'.spaces| == |s.spaces| && a < |s.spaces| && s'.spaces[a].regions == s.spaces[a].regions
    && (forall b :: 0 <= b < |s.spaces| && b != a ==> s'.spaces[b] == s.spaces[b])
    && (forall q: nat :: q != p ==> (q in s'.spaces[a].table <==> q in s.spaces[a].table))
    && (forall q: nat :: q != p && q in s.spaces[a].table ==> s'.spaces[a].table[q] == s.spaces[a].table[q])
  }

  /** A fault in a lazy region ends with the page mapped to what the object records for it: the page that was committed
      before, or the new one if there was none. */
  lemma FaultMaps(s: State, a: nat, j: nat, addr: nat, frame: nat)
    requires Coherent(s) && a < |s.spaces| && j < |s.spaces[a].regions| && s.spaces[a].regions[j].Has(addr)
    requires Resolvable(s, s.spaces[a].regions[j], addr)
    ensures var r, p := s.spaces[a].regions[j], addr / PAGE_SIZE;
            var s', i := Resolve(s, a, r, addr, frame), p - r.start / PAGE_SIZE;
            && OnlyPage(s, s', a, p) && p in s'.spaces[a].table && Agrees(s', r, p, s'.spaces[a].table[p])
            && s'.spaces[a].table[p].frame
               == (if s.pmos[r.pmo].Frame(i).Some? then s.pmos[r.pmo].Frame(i).value else frame)
  {
    var r := s.spaces[a].regions[j];
    assert SpaceOk(s, s.spaces[a]) && RegionOk(s, r);
    PageIndex(r, addr);
  }

  lemma PageIndex(r: Region, addr: nat)
    requires r.start % PAGE_SIZE == 0 && r.Has(addr)
    ensures r.HasPage(addr / PAGE_SIZE) && IndexOf(r, addr) == addr / PAGE_SIZE - r.start / PAGE_SIZE
    ensures 0 <= addr - addr % PAGE_SIZE - r.start
            && (addr - addr % PAGE_SIZE - r.start) / PAGE_SIZE == IndexOf(r, addr)
  {
  }

  lemma NewPmoGood(s: State, kind: Kind, pages: nat, start: nat)
    requires Coherent(s) && Enabled(s, NewPmo(kind, pages, start))
    ensures Coherent(Step(s, NewPmo(kind, pages, start))) && Grows(s, Step(s, NewPmo(kind, pages, start)))
  {
    var s' := Step(s, NewPmo(kind, pages, start));
    forall a | 0 <= a < |s'.spaces|
      ensures SpaceOk(s', s'.spaces[a])
    {
      SpaceKept(s, s', s.spaces[a]);
    }
    var n := |s.pmos|;
    forall o: nat, i: nat, o': nat, i': nat | o < |s'.pmos| && o' < |s'.pmos| && s'.pmos[o].kind.Owns()
        && s'.pmos[o'].kind.Owns()
      && s'.pmos[o].Frame(i).Some? && s'.pmos[o].Frame(i) == s'.pmos[o'].Frame(i')
      ensures o == o' && i == i'
    {
      assert o < n && o' < n ==> s.pmos[o].Frame(i) == s.pmos[o'].Frame(i');
      assert o' == n && kind.Owns() && kind.Prepared() && i' < pages ==> FreshFrame(s, start + i');
      assert o == n && kind.Owns() && kind.Prepared() && i < pages ==> FreshFrame(s, start + i);
    }
  }

  /** Space `a` alone has changed, and memory object `o` alone. */
  ghost predicate OnlyIn(s: State, s': State, a: nat, o: nat) {
    && |s'.spaces| == |s.spaces| && |s'.pmos| == |s.pmos|
    && (forall b :: 0 <= b < |s.spaces| && b != a ==> s'.spaces[b] == s.spaces[b])
    && (forall p :: 0 <= p < |s.pmos| && p != o ==> s'.pmos[p] == s.pmos[p])
  }

  /** Object `o` records frame `f` for page `i`, and for every other page what it recorded before. */
  ghost predicate Recorded(s: State, s': State, o: nat, i: nat, f: nat) {
    && |s'.pmos| == |s.pmos| && o < |s.pmos|
    && s'.pmos[o].kind == s.pmos[o].kind && s'.pmos[o].pages == s.pmos[o].pages
    && forall k: nat :: s'.pmos[o].Frame(k) == if k == i then Some(f) else s.pmos[o].Frame(k)
  }

  /** The pages of a prepared object are mapped from `first` on, and every other page as before. */
  ghost predicate FilledFrom(o: Pmo, first: nat, perm: Flags, table: map<nat, Entry>, table': map<nat, Entry>) {
    forall p: nat ::
      if o.kind.Prepared() && first <= p < first + o.pages then
        p in table' && table'[p] == Entry(o.start + (p - first), perm)
      else (p in table' <==> p in table) && (p in table ==> table'[p] == table[p])
  }

  /** The object has all its pages from the start, or none. */
  ghost predicate NewObject(o: Pmo, kind: Kind, pages: nat, start: nat) {
    && o.kind == kind && o.pages == pages
    && forall i: nat :: o.Frame(i) == if kind.Prepared() && i < pages then Some(start + i) else None
  }

  /** What each event is for. */
  ghost predicate Does(s: State, e: Event, s': State)
    requires Enabled(s, e)
  {
    match e
    case NewSpace => s'.pmos == s.pmos && s'.spaces == s.spaces + [Space([], map[])]
    case NewPmo(kind, pages, start) =>
      && s'.spaces == s.spaces && |s'.pmos| == |s.pmos| + 1 && s'.pmos[..|s.pmos|] == s.pmos
      && NewObject(s'.pmos[|s.pmos|], kind, pages, start)
    case MapRange(a, va, len, perm, o) =>
      && OnlyIn(s, s', a, |s.pmos|)
      && Placed(s.spaces[a].regions, s'.spaces[a].regions, va, len, perm, s.pmos[o].kind, o)
      && FilledFrom(s.pmos[o], va / PAGE_SIZE, s'.spaces[a].regions[0].perm, s.spaces[a].table, s'.spaces[a].table)
    case Commit(o, index, frame) => OnlyIn(s, s', |s.spaces|, o) && Recorded(s, s', o, index, frame)
    case Fault(a, addr, frame) =>
      match Find(s.spaces[a].regions, addr)
      case None => s' == s
      case Some(j) => FaultDoes(s, s', a, s.spaces[a].regions[j], addr, frame)
  }

  /** A fault in region `r` maps the page that its object has, or the new one, and the object has that one from then
      on. */
  ghost predicate FaultDoes(s: State, s': State, a: nat, r: Region, addr: nat, frame: nat)
    requires a < |s.spaces|
  {
    if !Resolvable(s, r, addr) then s' == s
    else
      var p, i := addr / PAGE_SIZE, IndexOf(r, addr);
      var had := s.pmos[r.pmo].Frame(i);
      var f := if had.Some? then had.value else frame;
      && OnlyIn(s, s', a, r.pmo) && OnlyPage(s, s', a, p) && Recorded(s, s', r.pmo, i, f)
      && p in s'.spaces[a].table && s'.spaces[a].table[p] == Entry(f, r.perm)
  }

  /** Every event does what it is for. */
  lemma StepDoes(s: State, e: Event)
    requires Coherent(s) && Enabled(s, e)
    ensures Does(s, e, Step(s, e))
  {
    match e {
      case NewSpace =>
      case NewPmo(kind, pages, start) =>
      case MapRange(a, va, len, perm, o) =>
        NewRegionPlaced(s.spaces[a].regions, va, len, perm, s.pmos[o].kind, o);
        assert (va - va % PAGE_SIZE) / PAGE_SIZE == va / PAGE_SIZE;
      case Commit(o, index, frame) =>
      case Fault(a, addr, frame) =>
    }
  }

  /** The mapping of a run is harmless. */
  ghost predicate Sane(s: State, e: Event)
    requires Enabled(s, e)
  {
    e.MapRange? ==> Harmless(s, e.a, EventRegion(s, e))
  }

  /** Every operation keeps the spaces coherent, as long as mappings are harmless, and never replaces a committed
      page. */
  lemma StepGood(s: State, e: Event)
    requires Coherent(s) && Enabled(s, e) && Sane(s, e)
    ensures Coherent(Step(s, e)) && Grows(s, Step(s, e))
  {
    match e {
      case NewSpace =>
        var s' := Step(s, e);
        forall a | 0 <= a < |s'.spaces|
          ensures SpaceOk(s', s'.spaces[a])
        {
          if a < |s.spaces| {
            SpaceKept(s, s', s.spaces[a]);
          }
        }
      case NewPmo(kind, pages, start) => NewPmoGood(s, kind, pages, start);
      case MapRange(a, va, len, perm, o) => AddRegionExact(s, a, EventRegion(s, e));
      case Commit(o, index, frame) => RecordGood(s, o, index, frame);
      case Fault(a, addr, frame) =>
        var f := Find(s.spaces[a].regions, addr);
        if f.Some? && Resolvable(s, s.spaces[a].regions[f.value], addr) {
          ResolveGood(s, a, f.value, addr, frame);
        }
    }
  }

  // --------------------------------------------------------------------------------------------- runs

  ghost predicate Legal(s: State, es: seq<Event>)
    decreases |es|
  {
    es == [] || (Enabled(s, es[0]) && Sane(s, es[0]) && Legal(Step(s, es[0]), es[1..]))
  }

  ghost function After(s: State, es: seq<Event>): State
    requires Legal(s, es)
    decreases |es|
  {
    if es == [] then s else After(Step(s, es[0]), es[1..])
  }

  lemma GrowsTrans(s: State, t: State, u: State)
    requires Grows(s, t) && Grows(t, u)
    ensures Grows(s, u)
  {
  }

  /** Every run keeps the state coherent, and never replaces a page that was committed. */
  lemma {:induction false} RunGood(s: State, es: seq<Event>)
    requires Coherent(s) && Legal(s, es)
    ensures Coherent(After(s, es)) && Grows(s, After(s, es))
    decreases |es|
  {
    if es != [] {
      StepGood(s, es[0]);
      RunGood(Step(s, es[0]), es[1..]);
      GrowsTrans(s, Step(s, es[0]), After(s, es));
    }
  }

  const EMPTY: State := State([], [])

  // ----------------------------------------------------------------------------------- prepared pages

  /** All pages of a prepared object that lie in the region are mapped. */
  ghost predicate RegionFilled(s: State, x: Space, r: Region) {
    r.pmo < |s.pmos| && (s.pmos[r.pmo].kind.Prepared() ==>
      forall p: nat :: r.HasPage(p) && p - r.start / PAGE_SIZE < s.pmos[r.pmo].pages ==> p in x.table)
  }

  ghost predicate Filled(s: State) {
    forall a, j :: 0 <= a < |s.spaces| && 0 <= j < |s.spaces[a].regions| ==>
          RegionFilled(s, s.spaces[a], s.spaces[a].regions[j])
  }

  lemma AddRegionFilled(s: State, a: nat, r: Region)
    requires Filled(s) && a < |s.spaces| && RegionOk(s, r)
    ensures Filled(AddRegion(s, a, r))
  {
    var s' := AddRegion(s, a, r);
    forall b, j | 0 <= b < |s'.spaces| && 0 <= j < |s'.spaces[b].regions|
      ensures RegionFilled(s', s'.spaces[b], s'.spaces[b].regions[j])
    {
      if b != a {
        assert RegionFilled(s, s.spaces[b], s.spaces[b].regions[j]);
      } else if j > 0 {
        assert RegionFilled(s, s.spaces[a], s.spaces[a].regions[j - 1]);
      }
    }
  }

  lemma StepFilled(s: State, e: Event)
    requires Coherent(s) && Filled(s) && Enabled(s, e)
    ensures Filled(Step(s, e))
  {
    if e.MapRange? {
      AddRegionFilled(s, e.a, EventRegion(s, e));
    } else {
      var s' := Step(s, e);
      forall a, j | 0 <= a < |s'.spaces| && 0 <= j < |s'.spaces[a].regions|
        ensures RegionFilled(s', s'.spaces[a], s'.spaces[a].regions[j])
      {
        assert RegionFilled(s, s.spaces[a], s.spaces[a].regions[j]);
      }
    }
  }

  lemma {:induction false} RunFilled(s: State, es: seq<Event>)
    requires Coherent(s) && Filled(s) && Legal(s, es)
    ensures Filled(After(s, es))
    decreases |es|
  {
    if es != [] {
      StepFilled(s, es[0]);
      StepGood(s, es[0]);
      RunFilled(Step(s, es[0]), es[1..]);
    }
  }

  /** In every reachable state a fault at a page of a region that its object has can be resolved, unless the object
      is one that forbids access: the handler stops the kernel for no other. */
  lemma FaultsResolve(es: seq<Event>, s: State, a: nat, j: nat, addr: nat)
    requires Legal(EMPTY, es) && s == After(EMPTY, es) && a < |s.spaces| && j < |s.spaces[a].regions|
    requires s.spaces[a].regions[j].Has(addr) && addr / PAGE_SIZE !in s.spaces[a].table
    ensures var r := s.spaces[a].regions[j];
            && r.pmo < |s.pmos|
            && (Resolvable(s, r, addr) <==> IndexOf(r, addr) < s.pmos[r.pmo].pages && s.pmos[r.pmo].kind != Forbid)
  {
    RunGood(EMPTY, es);
    RunFilled(EMPTY, es);
    assert SpaceOk(s, s.spaces[a]) && RegionOk(s, s.spaces[a].regions[j]);
    PageIndex(s.spaces[a].regions[j], addr);
    assert RegionFilled(s, s.spaces[a], s.spaces[a].regions[j]);
  }

  // -------------------------------------------------------------------------------- reachable states

  /** In every reachable state the regions of a space do not overlap, and a page that is mapped in a region is the one
      that its object records. */
  lemma MappedIsRecorded(es: seq<Event>, s: State, a: nat, j: nat, p: nat)
    requires Legal(EMPTY, es) && s == After(EMPTY, es) && a < |s.spaces| && j < |s.spaces[a].regions|
    requires p in s.spaces[a].table && s.spaces[a].regions[j].HasPage(p)
    ensures forall k :: 0 <= k < |s.spaces[a].regions| && k != j ==>
              Disjoint(s.spaces[a].regions[j], s.spaces[a].regions[k])
    ensures Agrees(s, s.spaces[a].regions[j], p, s.spaces[a].table[p])
  {
    RunGood(EMPTY, es);
    assert SpaceOk(s, s.spaces[a]);
    RegionsApart(s, s.spaces[a], j);
    RegionOfPage(s, s.spaces[a], j, p);
  }

  lemma RegionsApart(s: State, x: Space, j: nat)
    requires SpaceOk(s, x) && j < |x.regions|
    ensures forall k :: 0 <= k < |x.regions| && k != j ==> Disjoint(x.regions[j], x.regions[k])
  {
    forall k | 0 <= k < |x.regions| && k != j
      ensures Disjoint(x.regions[j], x.regions[k])
    {
      assert Disjoint(x.regions[if j < k then j else k], x.regions[if j < k then k else j]);
    }
  }

  lemma RegionOfPage(s: State, x: Space, j: nat, p: nat)
    requires SpaceOk(s, x) && j < |x.regions| && p in x.table && x.regions[j].HasPage(p)
    ensures Agrees(s, x.regions[j], p, x.table[p])
  {
    assert BackedBy(s, x.regions, p, x.table[p]);
    var k :| 0 <= k < |x.regions| && Agrees(s, x.regions[k], p, x.table[p]);
    assert RegionOk(s, x.regions[j]) && RegionOk(s, x.regions[k]);
    RegionsApart(s, x, j);
    PageInBoth(x.regions[j], x.regions[k], p);
  }

  /** Regions from page boundaries on that share a page overlap. */
  lemma PageInBoth(r: Region, q: Region, p: nat)
    requires r.start % PAGE_SIZE == 0 && q.start % PAGE_SIZE == 0 && r.HasPage(p) && q.HasPage(p)
    ensures !Disjoint(r, q)
  {
  }

  /** Two spaces, or two places of one, that have the same page of the same object mapped see the same frame; pages
      of objects that own their memory have the same frame only if they are the same page of the same object. */
  lemma SharedOnlyByObject(es: seq<Event>, s: State, a: nat, j: nat, p: nat, b: nat, k: nat, q: nat)
    requires Legal(EMPTY, es) && s == After(EMPTY, es)
    requires a < |s.spaces| && j < |s.spaces[a].regions| && p in s.spaces[a].table && s.spaces[a].regions[j].HasPage(p)
    requires b < |s.spaces| && k < |s.spaces[b].regions| && q in s.spaces[b].table && s.spaces[b].regions[k].HasPage(q)
    requires var r, t := s.spaces[a].regions[j], s.spaces[b].regions[k];
             r.pmo < |s.pmos| && t.pmo < |s.pmos| && s.pmos[r.pmo].kind.Owns() && s.pmos[t.pmo].kind.Owns()
    ensures var r, t := s.spaces[a].regions[j], s.spaces[b].regions[k];
            s.spaces[a].table[p].frame == s.spaces[b].table[q].frame
            <==> r.pmo == t.pmo && p - r.start / PAGE_SIZE == q - t.start / PAGE_SIZE
  {
    MappedIsRecorded(es, s, a, j, p);
    MappedIsRecorded(es, s, b, k, q);
    RunGood(EMPTY, es);
    SharedIff(s, s.spaces[a].regions[j], p, s.spaces[a].table[p], s.spaces[b].regions[k], q, s.spaces[b].table[q]);
  }

  lemma SharedIff(s: State, r: Region, p: nat, e: Entry, t: Region, q: nat, f: Entry)
    requires FramesDiffer(s) && Agrees(s, r, p, e) && Agrees(s, t, q, f) && s.pmos[r.pmo].kind.Owns()
             && s.pmos[t.pmo].kind.Owns()
    ensures e.frame == f.frame <==> r.pmo == t.pmo && p - r.start / PAGE_SIZE == q - t.start / PAGE_SIZE
  {
    SameFrameIff(s, r.pmo, p - r.start / PAGE_SIZE, t.pmo, q - t.start / PAGE_SIZE, e.frame, f.frame);
  }

  lemma SameFrameIff(s: State, o: nat, i: nat, o': nat, i': nat, f: nat, f': nat)
    requires FramesDiffer(s) && o < |s.pmos| && o' < |s.pmos| && s.pmos[o].kind.Owns() && s.pmos[o'].kind.Owns()
    requires s.pmos[o].Frame(i) == Some(f) && s.pmos[o'].Frame(i') == Some(f')
    ensures f == f' <==> o == o' && i == i'
  {
  }

  /** A page that was committed stays the same for the rest of the run. */
  lemma NeverReplaced(es: seq<Event>, s: State, more: seq<Event>, o: nat, i: nat)
    requires Legal(EMPTY, es) && s == After(EMPTY, es) && Legal(s, more) && o < |s.pmos| && i in s.pmos[o].radix
    ensures var s' := After(s, more);
            o < |s'.pmos| && i in s'.pmos[o].radix && s'.pmos[o].radix[i] == s.pmos[o].radix[i]
  {
    RunGood(EMPTY, es);
    RunGood(s, more);
  }
}
