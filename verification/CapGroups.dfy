/** The capability operations as code that updates slots, bitmaps, counts and rings in place.  Each method takes the
    step of the model, returns what the source returns, and its assertions hold. */
module CapGroups {
  import opened Common
  import opened Capability
  import opened CapabilityRuns
  import S = SlotTable

  const ECAPBILITY: int := 200

  /** A slot table with its bitmaps, and the slots that it holds: the ids in use are those that have a slot. */
  ghost predicate Agrees(t: S.Table<Slot>, table: seq<Option<Slot>>) {
    t.Ok() && t.slots == table && forall i: nat :: i < |table| ==> (t.Taken(i) <==> table[i].Some?)
  }

  /** The id that the bitmaps of a slot table yield is the least free one of the table. */
  lemma SlotIdAgrees(t: S.Table<Slot>, table: seq<Option<Slot>>, id: nat)
    requires Agrees(t, table)
    requires id <= t.size && (forall j: nat :: j < id ==> t.Taken(j)) && (id < t.size ==> !t.Taken(id))
    ensures id == LeastFree(table)
  {
  }

  /** The table after alloc_slot_id and install_slot. */
  function Extended(table: seq<Option<Slot>>, slot: Slot): seq<Option<Slot>> {
    var t := if LeastFree(table) < |table| then table else table + seq(BASE_OBJECT_NUM, _ => None);
    t[LeastFree(table) := Some(slot)]
  }

  /** Claiming the least free id and installing a slot there keeps the agreement. */
  lemma InstallAgrees(t: S.Table<Slot>, table: seq<Option<Slot>>, id: nat, slot: Slot)
    requires Agrees(t, table)
    requires var e := if t.AllTaken() then t.Expanded() else t;
             && id < e.size && !e.Taken(id) && (forall j: nat :: j < id ==> e.Taken(j))
             && id / 64 < |e.bmp| && id / 64 / 64 < |e.full|
    ensures var e := if t.AllTaken() then t.Expanded() else t;
            && id == LeastFree(table) && id < |e.slots| && e.Claim(id).slots == e.slots
            && Agrees(e.Claim(id).(slots := e.slots[id := Some(slot)]), Extended(table, slot))
  {
    S.ExpandedOk(t);
    var e := if t.AllTaken() then t.Expanded() else t;
    S.ClaimOk(e, id);
    assert id <= t.size by {
      assert !t.Taken(t.size);
    }
    SlotIdAgrees(t, table, id);
    ClaimAgrees(e, id, slot);
    assert e.slots == if id < |table| then table else table + seq(BASE_OBJECT_NUM, _ => None);
  }

  lemma ClaimAgrees(e: S.Table<Slot>, id: nat, slot: Slot)
    requires Agrees(e, e.slots) && id < e.size
    ensures id / 64 < |e.bmp| && id / 64 / 64 < |e.full| && e.Claim(id).slots == e.slots
    ensures Agrees(e.Claim(id).(slots := e.slots[id := Some(slot)]), e.slots[id := Some(slot)])
  {
    S.ClaimOk(e, id);
    var c := e.Claim(id).(slots := e.slots[id := Some(slot)]);
    assert forall i: nat :: c.Taken(i) == e.Claim(id).Taken(i);
  }

  /** So does releasing an id with its slot. */
  lemma ReleaseAgrees(t: S.Table<Slot>, table: seq<Option<Slot>>, id: nat)
    requires Agrees(t, table) && id < |table|
    ensures id / 64 < |t.bmp| && id / 64 / 64 < |t.full| && Agrees(t.Release(id), table[id := None])
  {
    S.ReleaseOk(t, id);
  }

  /** Object `o` has one reference more, which is held, and nothing else changed. */
  predicate OneMore(s: Caps, s': Caps, o: nat) {
    && o < |s.objects| == |s.held| && s'.tables == s.tables && s'.held == s.held[o := s.held[o] + 1]
    && s'.objects == s.objects[o := s.objects[o].(refcount := s.objects[o].refcount + 1)]
  }

  /** Revocation is a get, the loop over the ring, and a put. */
  lemma RevokesSo(s: Caps, s1: Caps, g: nat, i: int, o: nat)
    requires Good(s) && s.GetSlot(g, i).Some? && s.GetSlot(g, i).value.target == o && OneMore(s, s1, o)
    requires s1 == GetOpaque(s, g, i, None) && Good(s1)
    ensures var s2 := FreeEach(s1, s1.objects[o].copies);
            Enabled(s2, PutBack(o)) && CapFreeAll(s, g, i) == ObjPut(s2, o)
  {
    FreeEachGood(s1, s1.objects[o].copies, o);
  }

  /** A copy is a new slot, one count more, and a place in the ring. */
  lemma CopiesSo(s: Caps, g: nat, h: nat, i: int, o: nat)
    requires Good(s) && h < |s.tables| && s.GetSlot(g, i).Some? && s.GetSlot(g, i).value.target == o
    ensures o < |s.objects| && s.GetSlot(g, i).value.valid
    ensures var b, r := s.objects[o], Ref(h, LeastFree(s.tables[h]));
            CapCopy(s, g, h, i)
            == Install(s, h, o).(objects := s.objects[o := b.(refcount := b.refcount + 1,
                                                              copies := InsertAfter(b.copies, Ref(g, i), r))])
  {
    TargetLive(s, g, i);
  }

  class CapGroups {
    /** The slot table of each group. */
    var groups: seq<S.SlotTable<Slot>>
    var objects: seq<Object>
    /** The slots in the tables of all groups. */
    ghost var tables: seq<seq<Option<Slot>>>
    /** References handed out by obj_get and not yet put back. */
    ghost var held: seq<nat>

    ghost function View(): Caps
      reads this
    {
      Caps(tables, objects, held)
    }

    /** Every slot table is in order and holds the slots of its group. */
    ghost predicate Linked()
      reads this, groups
    {
      && |groups| == |tables| && NoDup(groups)
      && forall g :: 0 <= g < |groups| ==> Agrees(groups[g].View(), tables[g])
    }

    ghost predicate Valid()
      reads this, groups
    {
      Good(View()) && Linked()
    }

    /** Groups with empty tables. */
    constructor (n: nat)
      ensures Valid() && Empty(View()) && |tables| == n && fresh(groups)
      ensures forall g :: 0 <= g < n ==> tables[g] == seq(BASE_OBJECT_NUM, _ => None)
    {
      groups, objects, tables, held := [], [], [], [];
      new;
      for i := 0 to n
        invariant |groups| == |tables| == i && Linked() && fresh(groups) && objects == [] && held == []
        invariant forall g :: 0 <= g < i ==> tables[g] == seq(BASE_OBJECT_NUM, _ => None)
      {
        var t := new S.SlotTable<Slot>(BASE_OBJECT_NUM);
        groups := groups + [t];
        tables := tables + [seq(BASE_OBJECT_NUM, _ => None)];
      }
      EmptyGood(View());
    }

    /** is_valid_slot_id: an id in use always has a slot. */
    method IsValidSlotId(g: nat, i: int) returns (ok: bool)
      requires Linked() && g < |tables|
      ensures ok <==> View().GetSlot(g, i).Some?
    {
      var t := groups[g];
      assert Agrees(t.View(), tables[g]);
      if i < 0 || i >= t.size {
        return false;
      }
      if !S.Bit(t.bmp, i) {
        return false;
      }
      assert t.View().Taken(i);
      assert t.slots[i].Some?;
      return true;
    }

    method GetSlot(g: nat, i: int) returns (slot: Option<Slot>)
      requires Linked() && g < |tables|
      ensures slot == View().GetSlot(g, i)
    {
      assert Agrees(groups[g].View(), tables[g]);
      slot := groups[g].GetSlot(i);
    }

    /** alloc_slot_id and install_slot. */
    method InstallSlot(g: nat, o: nat) returns (id: nat)
      requires Linked() && g < |tables|
      modifies this`tables, groups
      ensures Linked() && id == LeastFree(old(tables)[g]) && View() == Install(old(View()), g, o)
    {
      var t := groups[g];
      ghost var v := t.View();
      assert Agrees(v, tables[g]);
      id := t.AllocSlotId();
      InstallAgrees(v, tables[g], id, Slot(id, g, o, true));
      t.InstallSlot(id, Slot(id, g, o, true));
      tables := tables[g := Extended(tables[g], Slot(id, g, o, true))];
    }

    /** free_slot_id. */
    method ClearSlot(g: nat, i: nat)
      requires Linked() && g < |tables| && i < |tables[g]|
      modifies this`tables, groups
      ensures Linked() && tables == old(tables)[g := old(tables)[g][i := None]]
    {
      var t := groups[g];
      ReleaseAgrees(t.View(), tables[g], i);
      t.FreeSlotId(i);
      tables := tables[g := tables[g][i := None]];
    }

    method AllocObject(kind: nat) returns (o: nat)
      requires Valid()
      modifies this`objects, this`held
      ensures Valid() && View() == Step(old(View()), New(kind)) && o == |old(objects)|
      ensures o < |objects| && objects[..o] == old(objects) && objects[o].kind == kind && objects[o].refcount == 0
    {
      StepGood(View(), New(kind));
      o := |objects|;
      objects := objects + [Object(kind, 0, [], Fresh)];
      held := held + [0];
    }

    /** cap_alloc. */
    method AllocCap(g: nat, o: nat) returns (r: int)
      requires Valid() && Enabled(View(), Alloc(g, o))
      modifies this`tables, this`objects, groups
      ensures Valid() && View() == Step(old(View()), Alloc(g, o)) && r == LeastFree(old(tables)[g])
    {
      CapAllocGood(View(), g, o);
      ghost var b := objects[o];
      var id := InstallSlot(g, o);
      objects := objects[o := objects[o].(copies := [Ref(g, id)] + objects[o].copies)];
      assert objects[o].refcount == 0;
      objects := objects[o := objects[o].(refcount := 1, phase := Live)];
      assert objects == old(objects)[o := b.(copies := [Ref(g, id)] + b.copies, refcount := 1, phase := Live)];
      return id;
    }

    /** One reference less, and __free_object with the last: its ring must then be empty. */
    method Unreference(o: nat)
      requires o < |objects| && (objects[o].refcount == 1 ==> objects[o].copies == [])
      modifies this`objects
      ensures objects == old(objects)[o := Drop(old(objects)[o])]
    {
      var old_refcount := objects[o].refcount;
      objects := objects[o := objects[o].(refcount := objects[o].refcount - 1)];
      if old_refcount == 1 {
        assert objects[o].copies == [];
        objects := objects[o := objects[o].(phase := Freed)];
      }
    }

    /** __cap_free. */
    method FreeCap(g: nat, i: int) returns (r: int)
      requires Valid() && g < |tables|
      modifies this`tables, this`objects, groups
      ensures Valid() && View() == Step(old(View()), Free(g, i))
      ensures r == if old(View()).GetSlot(g, i).None? then -ECAPBILITY else 0
      ensures |tables| == |old(tables)|
    {
      StepGood(View(), Free(g, i));
      TargetLive(View(), g, i);
      var slot := GetSlot(g, i);
      if slot.None? || !slot.value.valid {
        return -ECAPBILITY;
      }
      var o := slot.value.target;
      CapFreeGood(View(), g, i, o);
      assert ObjectOk(CapFree(View(), g, i), o);
      ghost var b := objects[o].(copies := Remove(objects[o].copies, Ref(g, i)));
      ClearSlot(g, i);
      objects := objects[o := objects[o].(copies := Remove(objects[o].copies, Ref(g, i)))];
      Unreference(o);
      assert objects == old(objects)[o := Drop(b)];
      return 0;
    }

    /** cap_copy. */
    method CopyCap(g: nat, h: nat, i: int) returns (r: int)
      requires Valid() && g < |tables| && h < |tables|
      modifies this`tables, this`objects, groups
      ensures Valid() && View() == Step(old(View()), Copy(g, h, i))
      ensures r == if old(View()).GetSlot(g, i).None? then -ECAPBILITY else LeastFree(old(tables)[h])
    {
      ghost var s := View();
      StepGood(s, Copy(g, h, i));
      if s.GetSlot(g, i).Some? {
        CopiesSo(s, g, h, i, s.GetSlot(g, i).value.target);
      }
      var slot := GetSlot(g, i);
      if slot.None? || !slot.value.valid {
        return -ECAPBILITY;
      }
      r := CopySlot(Ref(g, i), h, slot.value.target);
      assert View() == CapCopy(s, g, h, i);
    }

    /** The part of cap_copy that copies the slot. */
    method CopySlot(from: Ref, h: nat, o: nat) returns (id: nat)
      requires Linked() && h < |tables| && o < |objects|
      modifies this`tables, this`objects, groups
      ensures Linked() && id == LeastFree(old(tables)[h])
      ensures var b := old(objects)[o];
              View() == Install(old(View()), h, o)
                        .(objects := old(objects)[o := b.(refcount := b.refcount + 1,
                                                          copies := InsertAfter(b.copies, from, Ref(h, id)))])
    {
      id := InstallSlot(h, o);
      AddCopy(o, from, Ref(h, id));
    }

    /** One reference more, and the new slot behind the copied one in the ring. */
    method AddCopy(o: nat, from: Ref, to: Ref)
      requires o < |objects|
      modifies this`objects
      ensures var b := old(objects)[o];
              objects == old(objects)[o := b.(refcount := b.refcount + 1, copies := InsertAfter(b.copies, from, to))]
    {
      objects := objects[o := objects[o].(refcount := objects[o].refcount + 1)];
      objects := objects[o := objects[o].(copies := InsertAfter(objects[o].copies, from, to))];
    }

    /** cap_move: after a copy the free does not fail.  The source returns 0 then, not the new id. */
    method MoveCap(g: nat, h: nat, i: int) returns (r: int)
      requires Valid() && g < |tables| && h < |tables|
      modifies this`tables, this`objects, groups
      ensures Valid() && View() == Step(old(View()), Move(g, h, i))
      ensures r == if old(View()).GetSlot(g, i).None? then -ECAPBILITY else 0
    {
      TargetLive(View(), g, i);
      if View().GetSlot(g, i).Some? {
        CapCopyGood(View(), g, h, i, View().GetSlot(g, i).value.target);
      }
      r := CopyCap(g, h, i);
      if r < 0 {
        return;
      }
      r := FreeCap(g, i);
      assert r == 0;
    }

    /** get_opaque. */
    method GetObject(g: nat, i: int, kind: Option<nat>) returns (r: Option<nat>)
      requires Valid() && g < |tables|
      modifies this`objects, this`held
      ensures Valid() && View() == Step(old(View()), Get(g, i, kind))
      ensures var slot := old(View()).GetSlot(g, i);
              && (r.Some? <==> slot.Some? && slot.value.target < |old(objects)|
                               && (kind.None? || old(objects)[slot.value.target].kind == kind.value))
              && (r.Some? ==> r.value == slot.value.target)
      ensures if r.Some? then OneMore(old(View()), View(), r.value) else View() == old(View())
    {
      StepGood(View(), Get(g, i, kind));
      TargetLive(View(), g, i);
      var ok := IsValidSlotId(g, i);
      if !ok {
        return None;
      }
      var slot := GetSlot(g, i);
      var o := slot.value.target;
      if kind.Some? && objects[o].kind != kind.value {
        return None;
      }
      objects := objects[o := objects[o].(refcount := objects[o].refcount + 1)];
      held := held[o := held[o] + 1];
      return Some(o);
    }

    /** obj_put. */
    method PutObject(o: nat)
      requires Valid() && Enabled(View(), PutBack(o))
      modifies this`objects, this`held
      ensures Valid() && View() == Step(old(View()), PutBack(o))
    {
      PutGood(View(), o);
      assert ObjectOk(View(), o);
      Unreference(o);
      held := held[o := held[o] - 1];
    }

    /** cap_free_all: walks the ring with the next element in hand, while each round takes its element out. */
    method FreeAllCaps(g: nat, i: int) returns (r: int)
      requires Valid() && g < |tables|
      modifies this`tables, this`objects, this`held, groups
      ensures Valid() && View() == Step(old(View()), FreeAll(g, i))
      ensures r == if old(View()).GetSlot(g, i).None? then -ECAPBILITY else 0
    {
      ghost var s := View();
      TargetLive(s, g, i);
      var obj := GetObject(g, i, None);
      if obj.None? {
        return -ECAPBILITY;
      }
      RevokesSo(s, View(), g, i, obj.value);
      FreeRing(obj.value);
      return 0;
    }

    /** The loop and the put that follows it. */
    method FreeRing(o: nat)
      requires Valid() && o < |objects| && held[o] > 0
      modifies this`tables, this`objects, this`held, groups
      ensures Valid()
      ensures var s2 := FreeEach(old(View()), old(objects)[o].copies);
              Enabled(s2, PutBack(o)) && View() == ObjPut(s2, o)
    {
      FreeEachGood(View(), objects[o].copies, o);
      FreeCopies(o);
      PutObject(o);
    }

    /** The loop of cap_free_all. */
    method FreeCopies(o: nat)
      requires Valid() && o < |objects| && held[o] > 0
      modifies this`tables, this`objects, groups
      ensures Valid() && View() == FreeEach(old(View()), old(objects)[o].copies)
    {
      ghost var s := View();
      ghost var left := objects[o].copies;
      var slot_iter, slot_iter_tmp := First(objects[o].copies), Second(objects[o].copies);
      while slot_iter.Some?
        invariant Valid() && o < |objects| && held[o] > 0 && left == objects[o].copies
        invariant slot_iter == First(left) && slot_iter_tmp == Second(left)
        invariant FreeEach(View(), left) == FreeEach(s, s.objects[o].copies)
        decreases |left|
      {
        var ref := slot_iter.value;
        assert ObjectOk(View(), o);
        assert ref in left;
        CapFreeGood(View(), ref.group, ref.id, o);
        var r := FreeCap(ref.group, ref.id);
        assert r == 0;
        left := left[1..];
        slot_iter := slot_iter_tmp;
        slot_iter_tmp := Second(objects[o].copies);
      }
    }
  }

  function First<T>(s: seq<T>): Option<T> {
    if |s| > 0 then Some(s[0]) else None
  }

  function Second<T>(s: seq<T>): Option<T> {
    if |s| > 1 then Some(s[1]) else None
  }
}
