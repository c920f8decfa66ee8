/** What the other modules share: the page size, optional values, and sequences without repetition. */
module Common {

  const PAGE_SIZE: nat := 0x1000

  datatype Option<+T> = None | Some(value: T)

  ghost predicate NoDup<T>(s: seq<T>) {
    forall i, j :: 0 <= i < j < |s| ==> s[i] != s[j]
  }

  /** A set of the elements of such a sequence has as many elements. */
  lemma {:induction false} NoDupSize<T>(s: seq<T>, all: set<T>)
    requires NoDup(s) && forall x :: x in all <==> x in s
    ensures |all| == |s|
    decreases |s|
  {
    if s == [] {
      assert all == {};
    } else {
      assert s == [s[0]] + s[1..];
      NoDupSize(s[1..], all - {s[0]});
    }
  }

  lemma NoDupCons<T>(x: T, s: seq<T>)
    requires NoDup(s) && x !in s
    ensures NoDup([x] + s)
  {
    forall i, j | 0 <= i < j < |s| + 1
      ensures ([x] + s)[i] != ([x] + s)[j]
    {
      assert ([x] + s)[j] == s[j - 1];
    }
  }

  lemma NoDupConcat<T>(s: seq<T>, t: seq<T>)
    requires NoDup(s) && NoDup(t) && forall x :: x in s ==> x !in t
    ensures NoDup(s + t)
  {
    forall i, j | 0 <= i < j < |s + t|
      ensures (s + t)[i] != (s + t)[j]
    {
      if i < |s| <= j {
        assert (s + t)[i] in s && (s + t)[j] in t;
      }
    }
  }

  /** Takes out the first occurrence. */
  function Remove<T(==)>(s: seq<T>, x: T): (r: seq<T>) {
    if s == [] then [] else if s[0] == x then s[1..] else [s[0]] + Remove(s[1..], x)
  }

  lemma {:induction false} Removed<T>(s: seq<T>, x: T)
    requires NoDup(s)
    ensures NoDup(Remove(s, x)) && forall y :: y in Remove(s, x) <==> y in s && y != x
    ensures |Remove(s, x)| == if x in s then |s| - 1 else |s|
  {
    if s != [] {
      assert s == [s[0]] + s[1..];
      Removed(s[1..], x);
      if s[0] != x {
        NoDupCons(s[0], Remove(s[1..], x));
      }
    }
  }
}
