/** Capabilities: objects with a reference count and a ring of the slots that point at them, and the
    slot tables of any number of capability groups. */
module Capability {
  import opened Common

  /** Where a slot is: its group and its id there. */
  datatype Ref = Ref(group: nat, id: nat)

  datatype Slot = Slot(id: nat, group: nat, target: nat, valid: bool)

  /** Fresh from obj_alloc without a capability yet, alive, or freed. */
  datatype Phase = Fresh | Live | Freed

  /** `copies` is the ring of slots, from the one behind the head on. */
  datatype Object = Object(kind: nat, refcount: int, copies: seq<Ref>, phase: Phase)

  /** `held` counts, for each object, the references that obj_get handed out and that were not yet put back. */
  datatype Caps = Caps(tables: seq<seq<Option<Slot>>>, objects: seq<Object>, held: seq<nat>)
  {
    /** get_slot. */
    function GetSlot(g: nat, i: int): Option<Slot> {
      if g < |tables| && 0 <= i < |tables[g]| then tables[g][i] else None
    }

    /** The slot at `r` points at object `o`. */
    predicate Points(r: Ref, o: nat) {
      GetSlot(r.group, r.id).Some? && GetSlot(r.group, r.id).value.target == o
    }
  }

  // ---------------------------------------------------------------------------------------- sequences

  /** list_add behind an element of the ring. */
  function InsertAfter<T(==)>(s: seq<T>, x: T, y: T): (r: seq<T>) {
    if s == [] then [] else if s[0] == x then [x, y] + s[1..] else [s[0]] + InsertAfter(s[1..], x, y)
  }

  /** The new element comes directly behind `x`, and all others keep their order. */
  lemma {:induction false} InsertedBehind<T>(s: seq<T>, x: T, y: T) returns (i: nat)
    requires x in s
    ensures i < |s| && s[i] == x && x !in s[..i] && InsertAfter(s, x, y) == s[..i + 1] + [y] + s[i + 1..]
  {
    if s[0] == x {
      i := 0;
    } else {
      i := InsertedBehind(s[1..], x, y);
      i := i + 1;
      assert s == [s[0]] + s[1..];
    }
  }

  lemma {:induction false} InsertedAfter<T>(s: seq<T>, x: T, y: T)
    requires NoDup(s) && x in s && y !in s
    ensures |InsertAfter(s, x, y)| == |s| + 1 && NoDup(InsertAfter(s, x, y)) && forall z ::
              z in InsertAfter(s, x, y) <==> z in s || z == y
  {
    assert s == [s[0]] + s[1..];
    if s[0] != x {
      InsertedAfter(s[1..], x, y);
      NoDupCons(s[0], InsertAfter(s[1..], x, y));
    } else {
      NoDupCons(y, s[1..]);
      NoDupCons(x, [y] + s[1..]);
      assert [x] + ([y] + s[1..]) == [x, y] + s[1..];
    }
  }

  /** The least free id of a table, or its size; alloc_slot_id returns this one. */
  function LeastFree(table: seq<Option<Slot>>): (i: nat)
    ensures i <= |table| && (forall j :: 0 <= j < i ==> table[j].Some?) && (i < |table| ==> table[i].None?)
  {
    if table == [] || table[0].None? then 0 else 1 + LeastFree(table[1..])
  }

  const BASE_OBJECT_NUM: nat := 64

  /** Allocates the least free id, expanding the table if it is full, and installs a slot there. */
  function Install(s: Caps, g: nat, o: nat): Caps
    requires g < |s.tables|
  {
    var t := s.tables[g];
    var t' := if LeastFree(t) < |t| then t else t + seq(BASE_OBJECT_NUM, _ => None);
    s.(tables := s.tables[g := t'[LeastFree(t) := Some(Slot(LeastFree(t), g, o, true))]])
  }

  // ------------------------------------------------------------------------------------- the operations

  function ObjAlloc(s: Caps, kind: nat): Caps {
    s.(objects := s.objects + [Object(kind, 0, [], Fresh)], held := s.held + [0])
  }

  function CapAlloc(s: Caps, g: nat, o: nat): Caps
    requires g < |s.tables| && o < |s.objects|
  {
    var b := s.objects[o];
    Install(s, g, o).(objects := s.objects[o := b.(copies := [Ref(g, LeastFree(s.tables[g]))] + b.copies, refcount := 1,
                                                   phase := Live)])
  }

  /** One reference less; __free_object if it was the last. */
  function Drop(b: Object): Object {
    b.(refcount := b.refcount - 1, phase := if b.refcount == 1 then Freed else b.phase)
  }

  /** __cap_free; without a valid slot it fails and changes nothing. */
  function CapFree(s: Caps, g: nat, i: int): Caps {
    match s.GetSlot(g, i)
    case None => s
    case Some(slot) =>
      if !slot.valid || slot.target >= |s.objects| then s
      else
        var b := s.objects[slot.target];
        s.(tables := s.tables[g := s.tables[g][i := None]],
           objects := s.objects[slot.target := Drop(b.(copies := Remove(b.copies, Ref(g, i))))])
  }

  function CapCopy(s: Caps, g: nat, h: nat, i: int): Caps
    requires h < |s.tables|
  {
    match s.GetSlot(g, i)
    case None => s
    case Some(slot) =>
      if !slot.valid || slot.target >= |s.objects| then s
      else
        var b, r := s.objects[slot.target], Ref(h, LeastFree(s.tables[h]));
        Install(s, h, slot.target)
        .(objects := s.objects[slot.target :=
                                 b.(refcount := b.refcount + 1, copies := InsertAfter(b.copies, Ref(g, i), r))])
  }

  function CapMove(s: Caps, g: nat, h: nat, i: int): Caps
    requires h < |s.tables|
  {
    if s.GetSlot(g, i).None? then s else CapFree(CapCopy(s, g, h, i), g, i)
  }

  /** get_opaque, checking the type unless it is None. */
  function GetOpaque(s: Caps, g: nat, i: int, kind: Option<nat>): Caps {
    match s.GetSlot(g, i)
    case None => s
    case Some(slot) =>
      var o := slot.target;
      if o >= |s.objects| || o >= |s.held| || (kind.Some? && s.objects[o].kind != kind.value) then s
      else s.(objects := s.objects[o := s.objects[o].(refcount := s.objects[o].refcount + 1)],
              held := s.held[o := s.held[o] + 1])
  }

  function ObjPut(s: Caps, o: nat): Caps
    requires o < |s.objects| && o < |s.held| && s.held[o] > 0
  {
    s.(objects := s.objects[o := Drop(s.objects[o])], held := s.held[o := s.held[o] - 1])
  }

  /** The loop of cap_free_all: frees the slots at `refs`, in order. */
  function FreeEach(s: Caps, refs: seq<Ref>): Caps
    decreases |refs|
  {
    if refs == [] then s else FreeEach(CapFree(s, refs[0].group, refs[0].id), refs[1..])
  }

  function CapFreeAll(s: Caps, g: nat, i: int): Caps {
    match s.GetSlot(g, i)
    case None => s
    case Some(slot) =>
      var s1 := GetOpaque(s, g, i, None);
      if slot.target >= |s1.objects| then s
      else
        var s2 := FreeEach(s1, s1.objects[slot.target].copies);
        if slot.target < |s2.objects| && slot.target < |s2.held|
        && s2.held[slot.target] > 0 then ObjPut(s2, slot.target) else s2
  }

  // -------------------------------------------------------------------------------------- the invariant

  /** The ring of object `o` is the slots that point at it; its count is their number plus the references
      held; and it is alive as long as that is not 0. */
  ghost predicate ObjectOk(s: Caps, o: nat)
    requires o < |s.objects| == |s.held|
  {
    var b := s.objects[o];
    && NoDup(b.copies) && b.refcount == |b.copies| + s.held[o] && (b.phase == Live <==> b.refcount > 0)
    && forall r :: r in b.copies <==> s.Points(r, o)
  }

  predicate SlotOk(s: Caps, r: Ref) {
    var x := s.GetSlot(r.group, r.id);
    x.Some? ==> x.value.id == r.id && x.value.group == r.group && x.value.valid && x.value.target < |s.objects|
  }

  ghost predicate Good(s: Caps) {
    && |s.held| == |s.objects|
    && (forall o: nat :: o < |s.objects| ==> ObjectOk(s, o))
    && (forall r :: SlotOk(s, r))
  }

  /** Only object `o` and the slot at `r` change. */
  ghost predicate Touches(s: Caps, s': Caps, o: nat, r: Ref) {
    && |s'.objects| == |s.objects| && |s'.held| == |s.held| && o < |s.objects|
    && (forall p: nat :: p < |s.objects| && p != o ==> s'.objects[p] == s.objects[p])
    && (forall p: nat :: p < |s.held| && p != o ==> s'.held[p] == s.held[p])
    && (forall q: Ref :: q != r ==> s'.GetSlot(q.group, q.id) == s.GetSlot(q.group, q.id))
  }

  /** The rest follows from what happens to that object and that slot, if the slot points at no other object. */
  lemma Touched(s: Caps, s': Caps, o: nat, r: Ref)
    requires Good(s) && Touches(s, s', o, r) && ObjectOk(s', o) && SlotOk(s', r)
    requires forall p: nat :: p != o ==> !s.Points(r, p) && !s'.Points(r, p)
    ensures Good(s')
  {
    forall p: nat | p < |s'.objects|
      ensures ObjectOk(s', p)
    {
      if p != o {
        assert ObjectOk(s, p);
        forall q: Ref
          ensures s'.Points(q, p) == s.Points(q, p)
        {
        }
      }
    }
    forall q: Ref
      ensures SlotOk(s', q)
    {
      assert SlotOk(s, q);
    }
  }
}
