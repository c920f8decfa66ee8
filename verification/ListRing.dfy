/** The kernel's intrusive doubly linked ring, and that it is a sequence. */
module ListRing {

  class ListHead {
    var prev: ListHead
    var next: ListHead

    /** init_list_head. */
    constructor ()
      ensures Ring([this])
    {
      next := this;
      prev := this;
    }
  }

  function Succ(i: nat, n: nat): nat {
    if i + 1 == n then 0 else i + 1
  }

  predicate Linked(a: ListHead, b: ListHead)
    reads a, b
  {
    a.next == b && b.prev == a
  }

  ghost predicate Distinct(s: seq<ListHead>) {
    forall i, j :: 0 <= i < j < |s| ==> s[i] != s[j]
  }

  /** The nodes of `s`, in this order, form a ring. */
  ghost predicate Ring(s: seq<ListHead>)
    reads s
  {
    |s| > 0 && Distinct(s) && forall i: nat :: i < |s| ==> Linked(s[i], s[Succ(i, |s|)])
  }

  lemma DistinctCut(s: seq<ListHead>, i: nat)
    requires Distinct(s) && i < |s|
    ensures Distinct(s[..i] + s[i + 1..])
  {
    var t := s[..i] + s[i + 1..];
    forall a, b | 0 <= a < b < |t|
      ensures t[a] != t[b]
    {
      assert t[a] == s[if a < i then a else a + 1] && t[b] == s[if b < i then b else b + 1];
    }
  }

  /** list_add: `node` goes right behind `head`, wherever in the ring that is. */
  method ListAdd(node: ListHead, head: ListHead, ghost s: seq<ListHead>, ghost i: nat)
    requires Ring(s) && i < |s| && s[i] == head && node !in s
    modifies node, head, head.next
    ensures Ring(s[..i + 1] + [node] + s[i + 1..])
  {
    ghost var t, k := s[..i + 1] + [node] + s[i + 1..], Succ(i, |s|);
    assert Linked(s[i], s[k]);
    node.next := head.next;
    node.prev := head;
    head.next.prev := node;
    head.next := node;
    forall j: nat | j < |t|
      ensures Linked(t[j], t[Succ(j, |t|)])
    {
      if j != i && j != i + 1 {
        var o := if j < i then j else j - 1;
        assert old(Linked(s[o], s[Succ(o, |s|)]));
        assert t[j] == s[o] && t[Succ(j, |t|)] == s[Succ(o, |s|)];
        assert s[o] != head && s[Succ(o, |s|)] != s[k];
      }
    }
  }

  /** list_append: `node` becomes the last before `head`. */
  method ListAppend(node: ListHead, head: ListHead, ghost s: seq<ListHead>)
    requires Ring(s) && s[0] == head && node !in s
    modifies node, head, head.prev
    ensures Ring(s + [node])
  {
    assert Linked(s[|s| - 1], s[Succ(|s| - 1, |s|)]);
    var tail := head.prev;
    ListAdd(node, tail, s, |s| - 1);
    assert s[..|s|] + [node] + s[|s|..] == s + [node];
  }

  /** list_del: the ring without `node`. */
  method ListDel(node: ListHead, ghost s: seq<ListHead>, ghost i: nat)
    requires Ring(s) && 0 < i < |s| && s[i] == node
    modifies node.prev, node.next
    ensures Ring(s[..i] + s[i + 1..])
  {
    ghost var t, k := s[..i] + s[i + 1..], Succ(i, |s|);
    DistinctCut(s, i);
    assert Linked(s[i - 1], s[Succ(i - 1, |s|)]) && Linked(s[i], s[k]);
    node.prev.next := node.next;
    node.next.prev := node.prev;
    forall j: nat | j < |t|
      ensures Linked(t[j], t[Succ(j, |t|)])
    {
      if j != i - 1 {
        var o := if j < i then j else j + 1;
        assert old(Linked(s[o], s[Succ(o, |s|)]));
        assert t[j] == s[o] && t[Succ(j, |t|)] == s[Succ(o, |s|)];
        assert s[o] != s[i - 1] && s[Succ(o, |s|)] != s[k];
      }
    }
  }

  /** list_empty. */
  method ListEmpty(head: ListHead, ghost s: seq<ListHead>) returns (b: bool)
    requires Ring(s) && s[0] == head
    ensures b <==> |s| == 1
  {
    assert Linked(s[0], s[Succ(0, |s|)]);
    return head.next == head;
  }

  /** A loop in the form of for_each_in_list_safe that deletes every node it visits: it visits all of them, in
      order, although it changes the ring under its feet. */
  method DeleteAll(head: ListHead, ghost s: seq<ListHead>) returns (visited: seq<ListHead>)
    requires Ring(s) && s[0] == head
    modifies s
    ensures visited == s[1..] && Ring([head])
  {
    ghost var r := s;
    visited := [];
    RingEnds(s);
    var elem := head.next;
    var tmp := elem.next;
    while elem != head
      invariant Ring(r) && r[0] == head && elem == Second(r) && tmp == Third(r)
      invariant visited + r[1..] == s[1..] && forall i :: 0 <= i < |r| ==> r[i] in s
      decreases |r|
    {
      RingEnds(r);
      OneFurther(visited, r);
      visited := visited + [elem];
      elem, tmp, r := DeleteOne(head, elem, tmp, r);
    }
    RingEnds(r);
    assert r == [head];
  }

  lemma OneFurther(visited: seq<ListHead>, r: seq<ListHead>)
    requires |r| > 1
    ensures visited + r[1..] == visited + [r[1]] + ([r[0]] + r[2..])[1..]
    ensures forall i :: 0 <= i < |[r[0]] + r[2..]| ==> exists j :: 0 <= j < |r| && ([r[0]] + r[2..])[i] == r[j]
  {
    forall i | 0 <= i < |[r[0]] + r[2..]|
      ensures exists j :: 0 <= j < |r| && ([r[0]] + r[2..])[i] == r[j]
    {
      assert ([r[0]] + r[2..])[i] == r[if i == 0 then 0 else i + 1];
    }
  }

  /** One round: the node after the next is fetched only after the deletion. */
  method DeleteOne(head: ListHead, elem: ListHead, tmp: ListHead, ghost r: seq<ListHead>)
      returns (elem': ListHead, tmp': ListHead, ghost r': seq<ListHead>)
    requires Ring(r) && r[0] == head && |r| > 1 && elem == Second(r) && tmp == Third(r)
    modifies r
    ensures r' == [head] + r[2..] && Ring(r') && elem' == Second(r') && tmp' == Third(r')
  {
    RingEnds(r);
    ListDel(elem, r, 1);
    r' := r[..1] + r[2..];
    RingEnds(r');
    elem', tmp' := tmp, tmp.next;
  }

  /** The nodes one and two places behind the head, which may be the head again. */
  function Second(r: seq<ListHead>): ListHead
    requires |r| > 0
  {
    r[Succ(0, |r|)]
  }

  function Third(r: seq<ListHead>): ListHead
    requires |r| > 0
  {
    r[Succ(Succ(0, |r|), |r|)]
  }

  lemma RingEnds(r: seq<ListHead>)
    requires Ring(r)
    ensures r[0].next == Second(r) && Second(r).next == Third(r)
            && (|r| > 1 ==> Second(r).prev == r[0] && Second(r) == r[1])
    ensures Second(r) in r && Third(r) in r && (Second(r) == r[0] <==> |r| == 1)
    ensures |r| > 1 ==> Second(r[..1] + r[2..]) == Third(r)
  {
    assert Linked(r[0], r[Succ(0, |r|)]);
    assert Linked(r[Succ(0, |r|)], r[Succ(Succ(0, |r|), |r|)]);
  }
}
