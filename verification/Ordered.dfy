/** Ascending listings of finite sets, the iteration order of an ordered map, and binary search. */
module Ordered {

  ghost predicate Ascending(s: seq<int>)
  {
    forall i, j :: 0 <= i < j < |s| ==> s[i] < s[j]
  }

  function Elements(s: seq<int>): set<int>
  {
    set x | x in s
  }

  lemma Member<T>(s: set<T>) returns (x: T)
    requires s != {}
    ensures x in s
  {
    x :| x in s;
  }

  lemma MinExists(s: set<int>) returns (m: int)
    requires s != {}
    ensures m in s && forall x :: x in s ==> m <= x
  {
    var y := Member(s);
    var rest := s - {y};
    assert s == rest + {y};
    if rest == {} {
      m := y;
    } else {
      m := MinExists(rest);
      m := if y < m then y else m;
    }
  }

  function Min(s: set<int>): (m: int)
    requires s != {}
    ensures m in s && forall x :: x in s ==> m <= x
  {
    assert exists m :: m in s && forall x :: x in s ==> m <= x by {
      var w := MinExists(s);
      assert w in s;
    }
    var m :| m in s && forall x :: x in s ==> m <= x;
    m
  }

  lemma ElementsOfCons(m: int, rest: seq<int>)
    ensures Elements([m] + rest) == {m} + Elements(rest)
  {
    forall x
      ensures x in Elements([m] + rest) <==> x in {m} + Elements(rest)
    {
    }
  }

  /** The keys of an ordered map, in iteration order. */
  function Sorted(s: set<int>): (r: seq<int>)
    ensures Elements(r) == s && |r| == |s|
  {
    if s == {} then []
    else
      var m := Min(s);
      var rest := Sorted(s - {m});
      ElementsOfCons(m, rest);
      [m] + rest
  }

  lemma {:induction false} SortedAscending(s: set<int>)
    ensures Ascending(Sorted(s))
  {
    if s != {} {
      var m := Min(s);
      var rest := Sorted(s - {m});
      SortedAscending(s - {m});
      forall j | 0 <= j < |rest|
        ensures m < rest[j]
      {
        assert rest[j] in Elements(rest);
      }
    }
  }

  lemma SameMembers(a: seq<int>, b: seq<int>)
    requires Elements(a) == Elements(b)
    ensures forall i :: 0 <= i < |a| ==> a[i] in b
    ensures a != [] ==> b != []
  {
    forall i | 0 <= i < |a|
      ensures a[i] in b
    {
      assert a[i] in Elements(a);
    }
    if a != [] {
      assert a[0] in b;
    }
  }

  /** A strictly ascending sequence is determined by its elements. */
  lemma {:induction false} AscendingUnique(a: seq<int>, b: seq<int>)
    requires Ascending(a) && Ascending(b) && Elements(a) == Elements(b)
    ensures a == b
  {
    SameMembers(a, b);
    SameMembers(b, a);
    if a != [] && b != [] {
      assert a[0] == b[0];
      assert Elements(a[1..]) == Elements(a) - {a[0]};
      assert Elements(b[1..]) == Elements(b) - {b[0]};
      AscendingUnique(a[1..], b[1..]);
    }
  }

  /** Filtering an ascending listing of a superset lists the subset. */
  function Select(keys: seq<int>, s: set<int>): (r: seq<int>)
    ensures Elements(r) == Elements(keys) * s
  {
    if keys == [] then []
    else
      var rest := Select(keys[..|keys| - 1], s);
      var last := keys[|keys| - 1];
      assert Elements(keys) == Elements(keys[..|keys| - 1]) + {last};
      assert Elements(rest + [last]) == Elements(rest) + {last};
      if last in s then rest + [last] else rest
  }

  lemma {:induction false} SelectAscending(keys: seq<int>, s: set<int>)
    requires Ascending(keys)
    ensures Ascending(Select(keys, s))
  {
    if keys != [] {
      var front, last := keys[..|keys| - 1], keys[|keys| - 1];
      SelectAscending(front, s);
      var rest := Select(front, s);
      forall i | 0 <= i < |rest|
        ensures rest[i] < last
      {
        assert rest[i] in Elements(rest);
      }
    }
  }

  lemma SelectSorted(all: set<int>, s: set<int>)
    requires s <= all
    ensures Select(Sorted(all), s) == Sorted(s)
  {
    SortedAscending(all);
    SortedAscending(s);
    SelectAscending(Sorted(all), s);
    AscendingUnique(Select(Sorted(all), s), Sorted(s));
  }

  /** Binary search over the half-open range [lo, hi). */
  function Search(s: seq<int>, x: int, lo: nat, hi: nat): bool
    requires lo <= hi <= |s|
    decreases hi - lo
  {
    if lo == hi then false
    else
      var mid := lo + (hi - lo) / 2;
      if s[mid] == x then true
      else if s[mid] < x then Search(s, x, mid + 1, hi)
      else Search(s, x, lo, mid)
  }

  function BinarySearch(s: seq<int>, x: int): bool
  {
    Search(s, x, 0, |s|)
  }

  lemma {:induction false} SearchExact(s: seq<int>, x: int, lo: nat, hi: nat)
    requires lo <= hi <= |s| && Ascending(s)
    ensures Search(s, x, lo, hi) <==> exists i :: lo <= i < hi && s[i] == x
    decreases hi - lo
  {
    if lo < hi {
      var mid := lo + (hi - lo) / 2;
      if s[mid] < x {
        SearchExact(s, x, mid + 1, hi);
      } else if s[mid] > x {
        SearchExact(s, x, lo, mid);
      }
    }
  }

  /** On a strictly ascending sequence binary search is exact membership. */
  lemma BinarySearchExact(s: seq<int>, x: int)
    requires Ascending(s)
    ensures BinarySearch(s, x) <==> x in s
  {
    SearchExact(s, x, 0, |s|);
  }
}
