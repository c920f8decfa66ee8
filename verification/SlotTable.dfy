/** The slot table of a capability group: an array of slots, a bitmap of the ids in use, and a summary
    bitmap of the words of the first that are full. */
module SlotTable {
  import opened Common

  const BITS_PER_LONG: nat := 64

  /** An unsigned long, bit 0 first. */
  type Word = w: seq<bool> | |w| == 64 witness seq(64, _ => false)

  const ZERO: Word := seq(64, _ => false)

  predicate Full(w: Word) {
    forall i :: 0 <= i < 64 ==> w[i]
  }

  /** get_bit: the bit `nr` of a bitmap, counting through its words. */
  predicate Bit(p: seq<Word>, nr: nat) {
    nr / 64 < |p| && p[nr / 64][nr % 64]
  }

  function BitsToLongs(n: nat): nat {
    (n + 63) / 64
  }

  /** A write to one bit leaves every other bit. */
  lemma BitSet(p: seq<Word>, nr: nat, b: bool, i: nat)
    requires nr / 64 < |p|
    ensures Bit(p[nr / 64 := p[nr / 64][nr % 64 := b]], i) == if i == nr then b else Bit(p, i)
  {
    assert i / 64 == nr / 64 && i % 64 == nr % 64 ==> i == nr;
  }

  /** set_bit. */
  function SetBit(p: seq<Word>, nr: nat): (r: seq<Word>)
    requires nr / 64 < |p|
    ensures |r| == |p| && forall i: nat :: Bit(r, i) <==> i == nr || Bit(p, i)
  {
    var r := p[nr / 64 := p[nr / 64][nr % 64 := true]];
    assert forall i: nat :: Bit(r, i) <==> i == nr || Bit(p, i) by {
      forall i: nat
        ensures Bit(r, i) <==> i == nr || Bit(p, i)
      {
        BitSet(p, nr, true, i);
      }
    }
    r
  }

  /** clear_bit. */
  function ClearBit(p: seq<Word>, nr: nat): (r: seq<Word>)
    requires nr / 64 < |p|
    ensures |r| == |p| && forall i: nat :: Bit(r, i) <==> i != nr && Bit(p, i)
  {
    var r := p[nr / 64 := p[nr / 64][nr % 64 := false]];
    assert forall i: nat :: Bit(r, i) <==> i != nr && Bit(p, i) by {
      forall i: nat
        ensures Bit(r, i) <==> i != nr && Bit(p, i)
      {
        BitSet(p, nr, false, i);
      }
    }
    r
  }

  /** find_next_zero_bit, through find_next_bit_helper: the first zero bit from `start` on, or `size`. */
  method FindNextZeroBit(p: seq<Word>, size: nat, start: nat) returns (res: nat)
    requires 0 < size && BitsToLongs(size) <= |p| && start <= size
    ensures start <= res <= size && (res < size ==> !Bit(p, res))
    ensures forall i :: start <= i < res ==> Bit(p, i)
  {
    var maxElem := (size - 1) / 64;
    var elem: nat := start / 64;
    var bit: nat := start % 64;
    res := start;
    while elem <= maxElem
      invariant start <= res <= size
      invariant if elem <= maxElem then res == elem * 64 + bit && bit < 64 else res == size
      invariant forall i :: start <= i < res ==> Bit(p, i)
    {
      var maxBit := if elem < maxElem then 63 else (size - 1) % 64;
      while bit <= maxBit
        invariant res == elem * 64 + bit && bit <= maxBit + 1 && start <= res <= size
        invariant forall i :: start <= i < res ==> Bit(p, i)
      {
        assert res / 64 == elem && res % 64 == bit;
        if !p[elem][bit] {
          return;
        }
        bit := bit + 1;
        res := res + 1;
      }
      elem := elem + 1;
      bit := 0;
    }
    return size;
  }

  // ---------------------------------------------------------------------------------- the table as a value

  /** Slots of any kind; size is their number. */
  datatype Table<T> = Table(size: nat, slots: seq<Option<T>>, bmp: seq<Word>, full: seq<Word>)
  {
    ghost predicate Shape() {
      && size > 0 && size % 64 == 0 && |slots| == size && |bmp| == size / 64 && |full| == BitsToLongs(size / 64)
    }

    /** The summary has a bit for exactly the full words, and an id that has a slot is marked. */
    ghost predicate Ok() {
      && Shape()
      && (forall w: nat :: Bit(full, w) <==> w < |bmp| && Full(bmp[w]))
      && (forall i: nat :: i < size && slots[i].Some? ==> Bit(bmp, i))
    }

    /** Id `i` is in use. */
    predicate Taken(i: nat) {
      Bit(bmp, i)
    }

    /** No id is free. */
    ghost predicate AllTaken() {
      forall i: nat :: i < size ==> Taken(i)
    }

    /** Marks id `i`, and its word in the summary if that became full. */
    function Claim(i: nat): Table<T>
      requires i / 64 < |bmp| && i / 64 / 64 < |full|
    {
      var b := SetBit(bmp, i);
      this.(bmp := b, full := if Full(b[i / 64]) then SetBit(full, i / 64) else full)
    }

    /** Clears both bits of id `i`, and its slot. */
    function Release(i: nat): Table<T>
      requires i / 64 < |bmp| && i / 64 / 64 < |full| && i < |slots|
    {
      this.(bmp := ClearBit(bmp, i), full := ClearBit(full, i / 64), slots := slots[i := None])
    }

    /** One word more. */
    function Expanded(): Table<T> {
      var n := size + 64;
      this.(size := n, slots := slots + seq(64, _ => None), bmp := bmp + [ZERO],
            full := full + seq(if BitsToLongs(n / 64) > |full| then BitsToLongs(n / 64) - |full| else 0, _ => ZERO))
    }
  }

  lemma ClaimOk<T>(t: Table<T>, i: nat)
    requires t.Ok() && i < t.size
    ensures i / 64 < |t.bmp| && i / 64 / 64 < |t.full| && t.Claim(i).Ok() && t.Claim(i).slots == t.slots
    ensures forall j: nat :: t.Claim(i).Taken(j) <==> j == i || t.Taken(j)
  {
    var c := t.Claim(i);
    forall j: nat
      ensures c.Taken(j) <==> j == i || t.Taken(j)
    {
      BitSet(t.bmp, i, true, j);
    }
    forall w: nat
      ensures Bit(c.full, w) <==> w < |c.bmp| && Full(c.bmp[w])
    {
      if Full(c.bmp[i / 64]) {
        BitSet(t.full, i / 64, true, w);
      }
      assert w == i / 64 && Full(t.bmp[w]) ==> Full(c.bmp[w]);
    }
  }

  lemma ReleaseOk<T>(t: Table<T>, i: nat)
    requires t.Ok() && i < t.size
    ensures i / 64 < |t.bmp| && i / 64 / 64 < |t.full| && t.Release(i).Ok() && t.Release(i).slots == t.slots[i := None]
    ensures forall j: nat :: t.Release(i).Taken(j) <==> j != i && t.Taken(j)
  {
    var c := t.Release(i);
    forall j: nat
      ensures c.Taken(j) <==> j != i && t.Taken(j)
    {
      BitSet(t.bmp, i, false, j);
    }
    forall w: nat
      ensures Bit(c.full, w) <==> w < |c.bmp| && Full(c.bmp[w])
    {
      BitSet(t.full, i / 64, false, w);
      assert !c.bmp[i / 64][i % 64];
    }
  }

  /** Expanding keeps every slot and every bit, and adds free ids only. */
  lemma ExpandedOk<T>(t: Table<T>)
    requires t.Ok()
    ensures t.Expanded().Ok() && t.Expanded().slots[..t.size] == t.slots
            && |t.Expanded().full| == BitsToLongs((t.size + 64) / 64)
    ensures forall j: nat :: t.Expanded().Taken(j) == t.Taken(j)
    ensures forall j: nat :: t.size <= j ==> !t.Taken(j)
  {
    var c := t.Expanded();
    assert !Full(ZERO) by {
      assert !ZERO[0];
    }
    forall w: nat
      ensures Bit(c.full, w) == Bit(t.full, w)
    {
    }
    forall w: nat
      ensures Bit(c.full, w) <==> w < |c.bmp| && Full(c.bmp[w])
    {
      assert w < |t.bmp| ==> c.bmp[w] == t.bmp[w];
    }
  }

  /** The two-level search finds the least free id, or that there is none. */
  lemma LeastFree<T>(t: Table<T>, w: nat, i: nat)
    requires t.Ok() && w < t.size / 64 && (forall v: nat :: v < w ==> Bit(t.full, v)) && w * 64 <= i
    requires forall j: nat :: w * 64 <= j < i ==> t.Taken(j)
    ensures forall j: nat :: j < i ==> t.Taken(j)
    ensures !Bit(t.full, w) ==> exists j: nat :: w * 64 <= j < w * 64 + 64 && !t.Taken(j)
  {
    forall j: nat | j < i
      ensures t.Taken(j)
    {
      if j < w * 64 {
        assert Bit(t.full, j / 64);
      }
    }
    if !Bit(t.full, w) {
      var b :| 0 <= b < 64 && !t.bmp[w][b];
      assert (w * 64 + b) / 64 == w && (w * 64 + b) % 64 == b;
      assert !t.Taken(w * 64 + b);
    }
  }

  lemma NoneFree<T>(t: Table<T>)
    requires t.Ok()
    ensures t.AllTaken() <==> forall v: nat :: v < t.size / 64 ==> Bit(t.full, v)
  {
    if forall v: nat :: v < t.size / 64 ==> Bit(t.full, v) {
      forall i: nat | i < t.size
        ensures t.Taken(i)
      {
        assert Bit(t.full, i / 64);
      }
    }
    if t.AllTaken() {
      forall v: nat | v < t.size / 64
        ensures Bit(t.full, v)
      {
        forall b | 0 <= b < 64
          ensures t.bmp[v][b]
        {
          assert t.Taken(v * 64 + b);
          assert (v * 64 + b) / 64 == v && (v * 64 + b) % 64 == b;
        }
      }
    }
  }

  // -------------------------------------------------------------------------------- the table in memory

  class SlotTable<T> {
    var size: nat
    var slots: seq<Option<T>>
    var bmp: seq<Word>
    var full: seq<Word>

    ghost predicate Valid()
      reads this
    {
      View().Ok()
    }

    ghost function View(): Table<T>
      reads this
    {
      Table(size, slots, bmp, full)
    }

    /** slot_table_init. */
    constructor (n: nat)
      requires n > 0
      ensures Valid() && size == BitsToLongs(n) * 64 && forall i: nat :: !View().Taken(i)
      ensures slots == seq(size, _ => None)
    {
      size := BitsToLongs(n) * 64;
      slots := seq(BitsToLongs(n) * 64, _ => None);
      bmp := seq(BitsToLongs(n), _ => ZERO);
      full := seq(BitsToLongs(BitsToLongs(n)), _ => ZERO);
      new;
      assert !ZERO[0];
    }

    /** expand_slot_table: the old contents are copied into larger tables. */
    method Expand()
      requires Valid()
      modifies this
      ensures Valid() && View() == old(View()).Expanded()
    {
      ExpandedOk(View());
      var n := size + 64;
      slots := slots + seq(n - |slots|, _ => None);
      bmp := bmp + seq(BitsToLongs(n) - |bmp|, _ => ZERO);
      full := full + seq(BitsToLongs(BitsToLongs(n)) - |full|, _ => ZERO);
      size := n;
      assert bmp == old(View()).Expanded().bmp;
    }

    /** The two searches of alloc_slot_id: the least free id, or the size of the table if there is none. */
    method FindFree() returns (id: nat)
      requires Valid()
      ensures id <= size && (id == size <==> View().AllTaken()) && (id < size ==> !View().Taken(id))
      ensures forall j: nat :: j < id ==> View().Taken(j)
    {
      NoneFree(View());
      var w := FindNextZeroBit(full, BitsToLongs(size), 0);
      if w >= BitsToLongs(size) {
        return size;
      }
      id := FindNextZeroBit(bmp, size, w * 64);
      LeastFree(View(), w, id);
    }

    /** alloc_slot_id. */
    method AllocSlotId() returns (id: nat)
      requires Valid()
      modifies this
      ensures Valid()
      ensures var t := if old(View().AllTaken()) then old(View()).Expanded() else old(View());
              && id < t.size && !t.Taken(id) && (forall j: nat :: j < id ==> t.Taken(j))
              && id / 64 < |t.bmp| && id / 64 / 64 < |t.full| && View() == t.Claim(id)
    {
      ghost var t0 := View();
      ExpandedOk(t0);
      ghost var expanded := false;
      while true
        invariant Valid() && View() == (if expanded then t0.Expanded() else t0) && (expanded ==> t0.AllTaken())
        decreases if expanded then 0 else 1
      {
        id := FindFree();
        if id < size {
          break;
        }
        assert t0.Taken(size - 1);
        assert !expanded;
        Expand();
        expanded := true;
      }
      ClaimOk(View(), id);
      bmp := SetBit(bmp, id);
      if Full(bmp[id / 64]) {
        full := SetBit(full, id / 64);
      }
    }

    /** free_slot_id. */
    method FreeSlotId(id: nat)
      requires Valid() && id < size
      modifies this
      ensures Valid() && id / 64 < |old(View()).bmp| && id / 64 / 64 < |old(View()).full|
              && View() == old(View()).Release(id)
    {
      ReleaseOk(View(), id);
      bmp := ClearBit(bmp, id);
      full := ClearBit(full, id / 64);
      slots := slots[id := None];
    }

    /** get_slot. */
    method GetSlot(id: int) returns (r: Option<T>)
      requires Valid()
      ensures r == if 0 <= id < size then slots[id] else None
    {
      if id < 0 || id >= size {
        return None;
      }
      return slots[id];
    }

    /** install_slot: the id must have been allocated. */
    method InstallSlot(id: nat, slot: T)
      requires Valid() && id < size && View().Taken(id)
      modifies this
      ensures Valid() && View() == old(View()).(slots := old(slots)[id := Some(slot)])
    {
      slots := slots[id := Some(slot)];
    }
  }
}
