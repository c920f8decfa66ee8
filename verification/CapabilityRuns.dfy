/** What every run of capability operations keeps, and what revocation does. */
module CapabilityRuns {
  import opened Common
  import opened Capability

  // ---------------------------------------------------------------------------------------- each step

  lemma ObjAllocGood(s: Caps, kind: nat)
    requires Good(s)
    ensures Good(ObjAlloc(s, kind))
  {
    var s' := ObjAlloc(s, kind);
    forall p: nat | p < |s'.objects|
      ensures ObjectOk(s', p)
    {
      forall q: Ref
        ensures s'.Points(q, p) == s.Points(q, p)
      {
      }
      if p < |s.objects| {
        assert ObjectOk(s, p);
      } else {
        forall q: Ref
          ensures !s.Points(q, p)
        {
          assert SlotOk(s, q);
        }
      }
    }
    forall q: Ref
      ensures SlotOk(s', q)
    {
      assert SlotOk(s, q);
    }
  }

  /** A table grows by BASE_OBJECT_NUM ids if all its ids are in use, and else not. */
  predicate Grown(table: seq<Option<Slot>>, table': seq<Option<Slot>>) {
    |table'| == |table| + if forall i :: 0 <= i < |table| ==> table[i].Some? then BASE_OBJECT_NUM else 0
  }

  /** Installing a slot fills one free place and leaves all other slots. */
  lemma Installed(s: Caps, g: nat, o: nat, r: Ref)
    requires g < |s.tables| && r == Ref(g, LeastFree(s.tables[g]))
    ensures s.GetSlot(r.group, r.id) == None
            && Install(s, g, o).GetSlot(r.group, r.id) == Some(Slot(r.id, r.group, o, true))
    ensures forall q: Ref :: q != r ==> Install(s, g, o).GetSlot(q.group, q.id) == s.GetSlot(q.group, q.id)
    ensures Grown(s.tables[g], Install(s, g, o).tables[g])
  {
  }

  /** The slot at `r` was free and points at `o` now, which has one slot more, and nothing else changed. */
  ghost predicate Grants(s: Caps, s': Caps, r: Ref, o: nat) {
    && Touches(s, s', o, r) && s'.held == s.held
    && s.GetSlot(r.group, r.id) == None && s'.Points(r, o)
    && s'.objects[o].kind == s.objects[o].kind && s'.objects[o].refcount == s.objects[o].refcount + 1
       && s'.objects[o].phase == Live
    && r.group < |s.tables| && forall i: nat :: i < r.id ==> s.GetSlot(r.group, i).Some?
  }

  lemma CapAllocGood(s: Caps, g: nat, o: nat)
    requires Good(s) && g < |s.tables| && o < |s.objects| && s.objects[o].phase == Fresh
    ensures Good(CapAlloc(s, g, o)) && Grants(s, CapAlloc(s, g, o), Ref(g, LeastFree(s.tables[g])), o)
            && s.objects[o].refcount == 0
  {
    var s', r := CapAlloc(s, g, o), Ref(g, LeastFree(s.tables[g]));
    assert ObjectOk(s, o);
    assert s.objects[o].copies == [];
    Installed(s, g, o, r);
    forall q: Ref
      ensures q in s'.objects[o].copies <==> s'.Points(q, o)
    {
      assert s.Points(q, o) <==> q in s.objects[o].copies;
    }
    Touched(s, s', o, r);
  }

  /** What freeing one slot does: it goes, its object loses it and one count, and nothing else changes. */
  lemma CapFreeGood(s: Caps, g: nat, i: nat, o: nat)
    requires Good(s) && s.Points(Ref(g, i), o)
    ensures o < |s.objects| && Good(CapFree(s, g, i)) && Touches(s, CapFree(s, g, i), o, Ref(g, i))
    ensures CapFree(s, g, i).GetSlot(g, i) == None && CapFree(s, g, i).held == s.held
    ensures var b, b' := s.objects[o], CapFree(s, g, i).objects[o];
            b'.copies == Remove(b.copies, Ref(g, i)) && b'.refcount == b.refcount - 1
            && (b'.phase == Freed <==> b.refcount == 1)
  {
    var s', r := CapFree(s, g, i), Ref(g, i);
    assert SlotOk(s, r) && ObjectOk(s, o);
    assert r in s.objects[o].copies;
    Removed(s.objects[o].copies, r);
    assert Touches(s, s', o, r);
    forall q: Ref
      ensures q in s'.objects[o].copies <==> s'.Points(q, o)
    {
      assert s.Points(q, o) <==> q in s.objects[o].copies;
    }
    Touched(s, s', o, r);
  }

  /** In the ring the slot at `r` comes directly behind the one at `q`. */
  predicate Behind(ring: seq<Ref>, ring': seq<Ref>, q: Ref, r: Ref) {
    exists k :: 0 <= k < |ring| && ring[k] == q && ring' == ring[..k + 1] + [r] + ring[k + 1..]
  }

  lemma CapCopyGood(s: Caps, g: nat, h: nat, i: nat, o: nat)
    requires Good(s) && s.Points(Ref(g, i), o) && h < |s.tables|
    ensures Good(CapCopy(s, g, h, i)) && CapCopy(s, g, h, i).Points(Ref(g, i), o)
    ensures Grants(s, CapCopy(s, g, h, i), Ref(h, LeastFree(s.tables[h])), o)
            && Ref(h, LeastFree(s.tables[h])) != Ref(g, i)
            && Behind(s.objects[o].copies, CapCopy(s, g, h, i).objects[o].copies, Ref(g, i),
                      Ref(h, LeastFree(s.tables[h])))
  {
    var s', r, x := CapCopy(s, g, h, i), Ref(h, LeastFree(s.tables[h])), Ref(g, i);
    assert SlotOk(s, x) && ObjectOk(s, o);
    Installed(s, h, o, r);
    assert x in s.objects[o].copies && !s.Points(r, o);
    InsertedAfter(s.objects[o].copies, x, r);
    var k := InsertedBehind(s.objects[o].copies, x, r);
    forall q: Ref
      ensures q in s'.objects[o].copies <==> s'.Points(q, o)
    {
      assert s.Points(q, o) <==> q in s.objects[o].copies;
    }
    Touched(s, s', o, r);
  }

  /** The capability at `q` is at `r` now, its object `o` has as many as before, and nothing else changed. */
  ghost predicate Moves(s: Caps, s': Caps, q: Ref, r: Ref, o: nat) {
    && s'.held == s.held && s'.Points(r, o) && s'.GetSlot(q.group, q.id) == None
    && (forall x: Ref :: x != r && x != q ==> s'.GetSlot(x.group, x.id) == s.GetSlot(x.group, x.id))
    && |s'.objects| == |s.objects| && o < |s.objects|
    && forall p: nat :: p < |s.objects| ==>
         s'.objects[p] == if p == o then s.objects[o].(copies := s'.objects[o].copies) else s.objects[p]
  }

  /** Moving gives the capability a new place and leaves the object as it was, but for its ring. */
  lemma CapMoveGood(s: Caps, g: nat, h: nat, i: nat, o: nat)
    requires Good(s) && s.Points(Ref(g, i), o) && h < |s.tables|
    ensures Good(CapMove(s, g, h, i))
            && Moves(s, CapMove(s, g, h, i), Ref(g, i), Ref(h, LeastFree(s.tables[h])), o)
  {
    CapCopyGood(s, g, h, i, o);
    CapFreeGood(CapCopy(s, g, h, i), g, i, o);
    assert ObjectOk(s, o);
    assert Ref(g, i) in s.objects[o].copies;
  }

  /** A get takes one reference if the object is of the type wanted, or no type is; else it changes nothing. */
  lemma GetGood(s: Caps, g: nat, i: nat, o: nat, kind: Option<nat>)
    requires Good(s) && s.Points(Ref(g, i), o)
    ensures o < |s.objects| && Good(GetOpaque(s, g, i, kind)) && GetOpaque(s, g, i, kind).tables == s.tables
    ensures kind.None? || s.objects[o].kind == kind.value ==>
              GetOpaque(s, g, i, kind).held == s.held[o := s.held[o] + 1]
              && GetOpaque(s, g, i, kind).objects
                 == s.objects[o := s.objects[o].(refcount := s.objects[o].refcount + 1)]
    ensures kind.Some? && s.objects[o].kind != kind.value ==> GetOpaque(s, g, i, kind) == s
  {
    var s', r := GetOpaque(s, g, i, kind), Ref(g, i);
    assert SlotOk(s, r) && ObjectOk(s, o);
    forall q: Ref
      ensures s'.Points(q, o) == s.Points(q, o)
    {
    }
    assert r in s.objects[o].copies;
    assert ObjectOk(s', o);
    Touched(s, s', o, r);
  }

  lemma PutGood(s: Caps, o: nat)
    requires Good(s) && o < |s.objects| && s.held[o] > 0
    ensures Good(ObjPut(s, o)) && ObjPut(s, o).tables == s.tables && ObjPut(s, o).held == s.held[o := s.held[o] - 1]
    ensures var b' := ObjPut(s, o).objects[o];
            b'.refcount == s.objects[o].refcount - 1 && (b'.phase == Freed <==> b'.refcount == 0)
  {
    var s' := ObjPut(s, o);
    assert ObjectOk(s, o);
    forall q: Ref, p: nat
      ensures s'.Points(q, p) == s.Points(q, p)
    {
    }
    forall p: nat | p < |s'.objects|
      ensures ObjectOk(s', p)
    {
      assert ObjectOk(s, p);
    }
    forall q: Ref
      ensures SlotOk(s', q)
    {
      assert SlotOk(s, q);
    }
  }

  // --------------------------------------------------------------------------------------- revocation

  /** The slots that point at object `o` are gone, all others are as they were, and so are all other objects. */
  ghost predicate Revoked(s: Caps, s': Caps, o: nat) {
    && |s'.objects| == |s.objects| && o < |s.objects|
    && (forall r: Ref :: s'.GetSlot(r.group, r.id) == if s.Points(r, o) then None else s.GetSlot(r.group, r.id))
    && (forall p: nat :: p < |s.objects| && p != o ==> s'.objects[p] == s.objects[p])
  }

  lemma {:induction false} FreeEachGood(s: Caps, refs: seq<Ref>, o: nat)
    requires Good(s) && o < |s.objects| && refs == s.objects[o].copies && s.held[o] > 0
    ensures var s' := FreeEach(s, refs);
            Good(s') && Revoked(s, s', o) && s'.held == s.held && s'.objects[o].copies == []
    decreases |refs|
  {
    assert ObjectOk(s, o);
    if refs == [] {
      forall r: Ref
        ensures !s.Points(r, o)
      {
        assert r !in refs;
      }
    } else {
      var r := refs[0];
      assert r in refs;
      var s1 := CapFree(s, r.group, r.id);
      CapFreeGood(s, r.group, r.id, o);
      FreeEachGood(s1, refs[1..], o);
      var s' := FreeEach(s1, refs[1..]);
      forall q: Ref
        ensures s'.GetSlot(q.group, q.id) == if s.Points(q, o) then None else s.GetSlot(q.group, q.id)
      {
        assert q != r ==> s1.GetSlot(q.group, q.id) == s.GetSlot(q.group, q.id);
      }
    }
  }

  /** cap_free_all removes every capability for the object from every group and nothing else; the object
      is freed exactly if nobody holds a reference to it. */
  lemma Revocation(s: Caps, g: nat, i: nat, o: nat)
    requires Good(s) && s.Points(Ref(g, i), o)
    ensures var s' := CapFreeAll(s, g, i);
            && Good(s') && Revoked(s, s', o) && s'.held == s.held
            && s'.objects[o].refcount == s.held[o] && (s'.objects[o].phase == Freed <==> s.held[o] == 0)
  {
    assert SlotOk(s, Ref(g, i));
    GetGood(s, g, i, o, None);
    var s1 := GetOpaque(s, g, i, None);
    FreeEachGood(s1, s1.objects[o].copies, o);
    var s2 := FreeEach(s1, s1.objects[o].copies);
    PutGood(s2, o);
    var s' := ObjPut(s2, o);
    assert ObjectOk(s2, o) && ObjectOk(s', o);
    assert s'.held == s.held;
    forall r: Ref
      ensures s'.GetSlot(r.group, r.id) == if s.Points(r, o) then None else s.GetSlot(r.group, r.id)
    {
      assert s1.Points(r, o) == s.Points(r, o);
      assert s'.GetSlot(r.group, r.id) == s2.GetSlot(r.group, r.id);
    }
  }

  // --------------------------------------------------------------------------------------------- runs

  datatype Op =
    | New(kind: nat)
    | Alloc(g: nat, o: nat)
    | Free(g: nat, i: int)
    | Copy(g: nat, h: nat, i: int)
    | Move(g: nat, h: nat, i: int)
    | FreeAll(g: nat, i: int)
    | Get(g: nat, i: int, wanted: Option<nat>)
    | PutBack(o: nat)

  /** What callers promise: cap_alloc once on a new object, and obj_put only for a reference obtained from obj_get. */
  predicate Enabled(s: Caps, op: Op) {
    match op
    case Alloc(g, o) => g < |s.tables| && o < |s.objects| && s.objects[o].phase == Fresh
    case Copy(g, h, i) => h < |s.tables|
    case Move(g, h, i) => h < |s.tables|
    case PutBack(o) => o < |s.objects| && o < |s.held| && s.held[o] > 0
    case _ => true
  }

  function Step(s: Caps, op: Op): Caps
    requires Enabled(s, op)
  {
    match op
    case New(kind) => ObjAlloc(s, kind)
    case Alloc(g, o) => CapAlloc(s, g, o)
    case Free(g, i) => CapFree(s, g, i)
    case Copy(g, h, i) => CapCopy(s, g, h, i)
    case Move(g, h, i) => CapMove(s, g, h, i)
    case FreeAll(g, i) => CapFreeAll(s, g, i)
    case Get(g, i, kind) => GetOpaque(s, g, i, kind)
    case PutBack(o) => ObjPut(s, o)
  }

  /** The slot at `r` is gone, its object `o` has one slot less and is freed if it was the last reference, and nothing
      else changed. */
  ghost predicate Frees(s: Caps, s': Caps, r: Ref, o: nat) {
    && Touches(s, s', o, r) && s'.held == s.held && s'.GetSlot(r.group, r.id) == None
    && s'.objects[o].refcount == s.objects[o].refcount - 1
    && (s'.objects[o].phase == Freed <==> s.objects[o].refcount == 1)
  }

  /** What each operation does, to the slots and the counts. */
  ghost predicate Does(s: Caps, op: Op, s': Caps)
    requires Enabled(s, op)
  {
    match op
    case New(kind) =>
      && s'.tables == s.tables && s'.held == s.held + [0] && |s'.objects| == |s.objects| + 1
      && s'.objects[..|s.objects|] == s.objects && s'.objects[|s.objects|] == Object(kind, 0, [], Fresh)
    case Alloc(g, o) => Grants(s, s', Ref(g, LeastFree(s.tables[g])), o)
    case PutBack(o) =>
      && s'.tables == s.tables && s'.held == s.held[o := s.held[o] - 1]
      && |s'.objects| == |s.objects| && s'.objects == s.objects[o := s'.objects[o]]
      && s'.objects[o].refcount == s.objects[o].refcount - 1
      && (s'.objects[o].phase == Freed <==> s'.objects[o].refcount == 0)
    case _ =>
      var x := s.GetSlot(op.g, op.i);
      if x.None? || op.i < 0 then s' == s else DoesAt(s, op, s', op.i, x.value.target)
  }

  /** The operations on the capability with id `i`, which is for object `o`. */
  ghost predicate DoesAt(s: Caps, op: Op, s': Caps, i: nat, o: nat)
    requires Enabled(s, op)
  {
    match op
    case Free(g, _) => Frees(s, s', Ref(g, i), o)
    case Copy(g, h, _) => Grants(s, s', Ref(h, LeastFree(s.tables[h])), o)
    case Move(g, h, _) => Moves(s, s', Ref(g, i), Ref(h, LeastFree(s.tables[h])), o)
    case FreeAll(_, _) =>
      && Revoked(s, s', o) && s'.held == s.held
      && o < |s.held| && s'.objects[o].refcount == s.held[o] && (s'.objects[o].phase == Freed <==> s.held[o] == 0)
    case Get(_, _, kind) =>
      && o < |s.objects| == |s.held|
      && if kind.None? || s.objects[o].kind == kind.value then
           s' == s.(held := s.held[o := s.held[o] + 1],
                    objects := s.objects[o := s.objects[o].(refcount := s.objects[o].refcount + 1)])
         else s' == s
    case _ => true
  }

  /** Every operation does that, and keeps rings, counts and slots in agreement. */
  lemma StepGood(s: Caps, op: Op)
    requires Good(s) && Enabled(s, op)
    ensures Good(Step(s, op)) && Does(s, op, Step(s, op))
  {
    match op {
      case New(kind) => ObjAllocGood(s, kind);
      case Alloc(g, o) => CapAllocGood(s, g, o);
      case PutBack(o) => PutGood(s, o);
      case Free(g, i) =>
        if s.GetSlot(g, i).Some? {
          CapFreeGood(s, g, i, s.GetSlot(g, i).value.target);
        }
      case Copy(g, h, i) =>
        if s.GetSlot(g, i).Some? {
          CapCopyGood(s, g, h, i, s.GetSlot(g, i).value.target);
        }
      case Move(g, h, i) =>
        if s.GetSlot(g, i).Some? {
          CapMoveGood(s, g, h, i, s.GetSlot(g, i).value.target);
        }
      case FreeAll(g, i) =>
        if s.GetSlot(g, i).Some? {
          Revocation(s, g, i, s.GetSlot(g, i).value.target);
        }
      case Get(g, i, kind) =>
        if s.GetSlot(g, i).Some? {
          GetGood(s, g, i, s.GetSlot(g, i).value.target, kind);
        }
    }
  }

  predicate Legal(s: Caps, ops: seq<Op>)
    decreases |ops|
  {
    ops == [] || (Enabled(s, ops[0]) && Legal(Step(s, ops[0]), ops[1..]))
  }

  function After(s: Caps, ops: seq<Op>): Caps
    requires Legal(s, ops)
    decreases |ops|
  {
    if ops == [] then s else After(Step(s, ops[0]), ops[1..])
  }

  /** Groups with empty tables and no objects. */
  ghost predicate Empty(s: Caps) {
    s.objects == [] && s.held == [] && forall r: Ref :: s.GetSlot(r.group, r.id) == None
  }

  lemma {:induction false} RunGood(s: Caps, ops: seq<Op>)
    requires Good(s) && Legal(s, ops)
    ensures Good(After(s, ops))
    decreases |ops|
  {
    if ops != [] {
      StepGood(s, ops[0]);
      RunGood(Step(s, ops[0]), ops[1..]);
    }
  }

  lemma EmptyGood(s: Caps)
    requires Empty(s)
    ensures Good(s)
  {
    forall r: Ref
      ensures SlotOk(s, r)
    {
      assert s.GetSlot(r.group, r.id) == None;
    }
  }

  /** All slots that point at object `o`. */
  ghost function SlotsTo(s: Caps, o: nat): set<Ref> {
    set g, i | 0 <= g < |s.tables| && 0 <= i < |s.tables[g]| && s.Points(Ref(g, i), o) :: Ref(g, i)
  }

  /** In every reachable state the reference count of an object is the number of slots that point at it plus
      the references held, and that number of slots is the length of its ring. */
  lemma RefcountExact(s0: Caps, ops: seq<Op>, s: Caps, o: nat)
    requires Empty(s0) && Legal(s0, ops) && s == After(s0, ops) && o < |s.objects|
    ensures |s.held| == |s.objects| && |SlotsTo(s, o)| == |s.objects[o].copies|
    ensures s.objects[o].refcount == |SlotsTo(s, o)| + s.held[o]
  {
    EmptyGood(s0);
    RunGood(s0, ops);
    assert ObjectOk(s, o);
    forall r: Ref
      ensures r in SlotsTo(s, o) <==> r in s.objects[o].copies
    {
      assert s.Points(r, o) <==> r in s.objects[o].copies;
    }
    NoDupSize(s.objects[o].copies, SlotsTo(s, o));
  }

  /** No installed slot points at an object that is freed, or not yet in use; and whoever holds a reference
      can rely on the object being there. */
  lemma NoDangling(s0: Caps, ops: seq<Op>, s: Caps, r: Ref, o: nat)
    requires Empty(s0) && Legal(s0, ops) && s == After(s0, ops) && o < |s.objects| == |s.held|
    requires s.Points(r, o) || s.held[o] > 0
    ensures s.objects[o].phase == Live
  {
    EmptyGood(s0);
    RunGood(s0, ops);
    assert ObjectOk(s, o);
    assert s.Points(r, o) ==> r in s.objects[o].copies;
  }

  /** Objects are freed exactly when their count gets to 0, and are not brought back. */
  lemma Lifecycle(s: Caps, op: Op, o: nat)
    requires Good(s) && Enabled(s, op) && o < |s.objects|
    ensures o < |Step(s, op).objects|
    ensures s.objects[o].phase == Live ==>
              (Step(s, op).objects[o].phase == Freed <==> Step(s, op).objects[o].refcount == 0)
    ensures s.objects[o].phase == Freed ==> Step(s, op).objects[o].phase == Freed
    ensures s.objects[o].phase == Fresh ==>
              Step(s, op).objects[o].phase == (if op.Alloc? && op.o == o then Live else Fresh)
  {
    StepGood(s, op);
    assert ObjectOk(s, o);
    match op {
      case Alloc(g, p) => CapAllocGood(s, g, p);
      case Free(g, i) => TargetLive(s, g, i);
      case Copy(g, h, i) => TargetLive(s, g, i);
      case Get(g, i, kind) => TargetLive(s, g, i);
      case Move(g, h, i) =>
        TargetLive(s, g, i);
        if s.GetSlot(g, i).Some? {
          var p := s.GetSlot(g, i).value.target;
          CapCopyGood(s, g, h, i, p);
          CapFreeGood(CapCopy(s, g, h, i), g, i, p);
        }
      case FreeAll(g, i) =>
        TargetLive(s, g, i);
        if s.GetSlot(g, i).Some? {
          Revocation(s, g, i, s.GetSlot(g, i).value.target);
        }
      case _ =>
    }
    assert ObjectOk(Step(s, op), o);
  }

  /** The type of an object never changes. */
  lemma StepKinds(s: Caps, op: Op, o: nat)
    requires Good(s) && Enabled(s, op) && o < |s.objects|
    ensures o < |Step(s, op).objects| && Step(s, op).objects[o].kind == s.objects[o].kind
  {
    match op {
      case Move(g, h, i) =>
        if s.GetSlot(g, i).Some? {
          CapCopyGood(s, g, h, i, s.GetSlot(g, i).value.target);
        }
      case FreeAll(g, i) =>
        if s.GetSlot(g, i).Some? {
          var p := s.GetSlot(g, i).value.target;
          GetGood(s, g, i, p, None);
          var s1 := GetOpaque(s, g, i, None);
          FreeEachKinds(s1, s1.objects[p].copies, o);
        }
      case _ =>
    }
  }

  lemma {:induction false} FreeEachKinds(s: Caps, refs: seq<Ref>, o: nat)
    requires o < |s.objects|
    ensures |FreeEach(s, refs).objects| == |s.objects| && FreeEach(s, refs).objects[o].kind == s.objects[o].kind
    decreases |refs|
  {
    if refs != [] {
      FreeEachKinds(CapFree(s, refs[0].group, refs[0].id), refs[1..], o);
    }
  }

  lemma {:induction false} RunKinds(s: Caps, ops: seq<Op>, o: nat)
    requires Good(s) && Legal(s, ops) && o < |s.objects|
    ensures o < |After(s, ops).objects| && After(s, ops).objects[o].kind == s.objects[o].kind
    decreases |ops|
  {
    if ops != [] {
      StepGood(s, ops[0]);
      StepKinds(s, ops[0], o);
      RunKinds(Step(s, ops[0]), ops[1..], o);
    }
  }

  /** Whatever happens after an object of type `kind` was made, a get through any capability for it takes a reference
      exactly if no type is wanted or that one. */
  lemma TypedGet(s: Caps, kind: nat, ops: seq<Op>, s': Caps, r: Ref, wanted: Option<nat>)
    requires Good(s) && Legal(Step(s, New(kind)), ops) && s' == After(Step(s, New(kind)), ops)
    requires s'.Points(r, |s.objects|)
    ensures var o, t := |s.objects|, Step(s', Get(r.group, r.id, wanted));
            && o < |s'.objects| == |s'.held| && t.tables == s'.tables
            && (if wanted.None? || wanted.value == kind
                then t.held == s'.held[o := s'.held[o] + 1]
                     && t.objects == s'.objects[o := s'.objects[o].(refcount := s'.objects[o].refcount + 1)]
                else t == s')
  {
    var s1, o := Step(s, New(kind)), |s.objects|;
    StepGood(s, New(kind));
    RunGood(s1, ops);
    assert s1.objects[o].kind == kind;
    RunKinds(s1, ops, o);
    GetGood(s', r.group, r.id, o, wanted);
  }

  lemma TargetLive(s: Caps, g: nat, i: int)
    requires Good(s)
    ensures s.GetSlot(g, i).Some? ==>
              var o := s.GetSlot(g, i).value.target;
              o < |s.objects| && s.objects[o].phase == Live && s.GetSlot(g, i).value.valid
  {
    if s.GetSlot(g, i).Some? {
      var o := s.GetSlot(g, i).value.target;
      assert SlotOk(s, Ref(g, i)) && ObjectOk(s, o);
      assert Ref(g, i) in s.objects[o].copies;
    }
  }
}
