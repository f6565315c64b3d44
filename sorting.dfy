/** Python's `sorted`/`list.sort`: a stable sort by a key, with `reverse=True`
    still keeping equal keys in their original order. The order is given as
    a total preorder `le` ("a may come before b"); the sort is an insertion
    sort, whose result is the unique stable sorted permutation. */
module Sorting {

  ghost predicate TotalPreorder<T(!new)>(le: (T, T) -> bool) {
    (forall a, b :: le(a, b) || le(b, a))
    && (forall a, b, c :: le(a, b) && le(b, c) ==> le(a, c))
  }

  predicate Sorted<T>(s: seq<T>, le: (T, T) -> bool) {
    forall i, j :: 0 <= i < j < |s| ==> le(s[i], s[j])
  }

  /** Puts x after the last element that may come before it. */
  function Insert<T>(s: seq<T>, x: T, le: (T, T) -> bool): (r: seq<T>)
    ensures multiset(r) == multiset(s) + multiset{x}
  {
    if s == [] then [x]
    else if le(s[|s| - 1], x) then s + [x]
    else
      var init := s[..|s| - 1];
      assert s == init + [s[|s| - 1]];
      Insert(init, x, le) + [s[|s| - 1]]
  }

  /** `sorted(s, key=...)`. */
  function SortBy<T>(s: seq<T>, le: (T, T) -> bool): (r: seq<T>)
    ensures multiset(r) == multiset(s)
  {
    if s == [] then []
    else
      var init := s[..|s| - 1];
      assert s == init + [s[|s| - 1]];
      Insert(SortBy(init, le), s[|s| - 1], le)
  }

  lemma {:induction false} InsertSorted<T(!new)>(s: seq<T>, x: T, le: (T, T) -> bool)
    requires TotalPreorder(le) && Sorted(s, le)
    ensures Sorted(Insert(s, x, le), le)
  {
    if s != [] && !le(s[|s| - 1], x) {
      var init := s[..|s| - 1];
      var last := s[|s| - 1];
      InsertSorted(init, x, le);
      var t := Insert(init, x, le);
      forall e | e in t
        ensures le(e, last)
      {
        assert e in multiset(t);
        if e != x {
          var i :| 0 <= i < |init| && init[i] == e;
        }
      }
    }
  }

  /** The result is sorted, and (by the contract of `SortBy`) a permutation. */
  lemma {:induction false} SortBySorted<T(!new)>(s: seq<T>, le: (T, T) -> bool)
    requires TotalPreorder(le)
    ensures Sorted(SortBy(s, le), le)
  {
    if s != [] {
      SortBySorted(s[..|s| - 1], le);
      InsertSorted(SortBy(s[..|s| - 1], le), s[|s| - 1], le);
    }
  }

  /** The elements of s that tie with y, in their order in s. */
  function Ties<T>(s: seq<T>, y: T, le: (T, T) -> bool): seq<T> {
    if s == [] then []
    else Ties(s[..|s| - 1], y, le) + (if le(s[|s| - 1], y) && le(y, s[|s| - 1]) then [s[|s| - 1]] else [])
  }

  lemma TiesAppend<T>(s: seq<T>, x: T, y: T, le: (T, T) -> bool)
    ensures Ties(s + [x], y, le) == Ties(s, y, le) + Ties([x], y, le)
  {
    assert (s + [x])[..|s + [x]| - 1] == s;
  }

  lemma {:induction false} InsertTies<T(!new)>(s: seq<T>, x: T, y: T, le: (T, T) -> bool)
    requires TotalPreorder(le)
    ensures Ties(Insert(s, x, le), y, le) == Ties(s, y, le) + Ties([x], y, le)
  {
    if s == [] {
    } else if le(s[|s| - 1], x) {
      TiesAppend(s, x, y, le);
    } else {
      var init := s[..|s| - 1];
      var last := s[|s| - 1];
      var a, tx, tl := Ties(init, y, le), Ties([x], y, le), Ties([last], y, le);
      assert Ties(Insert(s, x, le), y, le) == a + tx + tl by {
        assert Insert(s, x, le) == Insert(init, x, le) + [last];
        TiesAppend(Insert(init, x, le), last, y, le);
        InsertTies(init, x, y, le);
      }
      assert Ties(s, y, le) == a + tl by {
        assert init + [last] == s;
        TiesAppend(init, last, y, le);
      }
      assert tx == [] || tl == [] by {
        assert [x][..0] == [] && [last][..0] == [];
        if le(x, y) && le(y, x) {
          assert !(le(last, y) && le(y, last));
        }
      }
      assert a + tx + tl == a + tl + tx;
    }
  }

  /** Stability: the elements that tie with any y keep their input order. */
  lemma {:induction false} SortByStable<T(!new)>(s: seq<T>, y: T, le: (T, T) -> bool)
    requires TotalPreorder(le)
    ensures Ties(SortBy(s, le), y, le) == Ties(s, y, le)
  {
    if s != [] {
      var init, x := s[..|s| - 1], s[|s| - 1];
      calc {
        Ties(SortBy(s, le), y, le);
        Ties(Insert(SortBy(init, le), x, le), y, le);
        { InsertTies(SortBy(init, le), x, y, le); }
        Ties(SortBy(init, le), y, le) + Ties([x], y, le);
        { SortByStable(init, y, le); }
        Ties(init, y, le) + Ties([x], y, le);
        { TiesAppend(init, x, y, le); assert init + [x] == s; }
        Ties(s, y, le);
      }
    }
  }

  /** An already sorted list is left as it is. */
  lemma {:induction false} SortBySortedInput<T(!new)>(s: seq<T>, le: (T, T) -> bool)
    requires Sorted(s, le)
    ensures SortBy(s, le) == s
  {
    if s != [] {
      var init := s[..|s| - 1];
      assert Sorted(init, le);
      SortBySortedInput(init, le);
      if |init| > 0 {
        assert le(init[|init| - 1], s[|s| - 1]);
      }
      assert init + [s[|s| - 1]] == s;
    }
  }
}
