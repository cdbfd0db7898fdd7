/** Python's stable sort, and what it does to filters and to the last element. */
module StableSort {
  import opened Options

  predicate Sorted<T>(s: seq<T>, key: T -> int) {
    forall i, j :: 0 <= i < j < |s| ==> key(s[i]) <= key(s[j])
  }

  /** Place `x` behind every element whose key is not greater. */
  function Place<T>(s: seq<T>, x: T, key: T -> int): seq<T> {
    if s == [] then [x]
    else if key(s[|s| - 1]) <= key(x) then s + [x]
    else Place(s[..|s| - 1], x, key) + [s[|s| - 1]]
  }

  /** sorted(s, key=key) */
  function Sort<T>(s: seq<T>, key: T -> int): seq<T> {
    if s == [] then [] else Place(Sort(s[..|s| - 1], key), s[|s| - 1], key)
  }

  function Filter<T>(s: seq<T>, keep: T -> bool): seq<T> {
    if s == [] then []
    else Filter(s[..|s| - 1], keep) + if keep(s[|s| - 1]) then [s[|s| - 1]] else []
  }

  lemma {:induction false} PlaceSorted<T>(s: seq<T>, x: T, key: T -> int)
    requires Sorted(s, key)
    ensures Sorted(Place(s, x, key), key)
  {
    if s != [] {
      var l := |s| - 1;
      if key(s[l]) > key(x) {
        PlaceSorted(s[..l], x, key);
        PlaceElements(s[..l], x, key);
        SortedSnoc(Place(s[..l], x, key), s[l], key);
      } else {
        SortedSnoc(s, x, key);
      }
    }
  }

  lemma SortedSnoc<T>(s: seq<T>, y: T, key: T -> int)
    requires Sorted(s, key) && forall x <- s :: key(x) <= key(y)
    ensures Sorted(s + [y], key)
  {
  }

  lemma {:induction false} PlaceElements<T>(s: seq<T>, x: T, key: T -> int)
    ensures multiset(Place(s, x, key)) == multiset(s) + multiset{x}
    ensures forall y <- Place(s, x, key) :: y == x || y in s
  {
    if s != [] {
      var l := |s| - 1;
      PlaceElements(s[..l], x, key);
      assert s == s[..l] + [s[l]];
    }
  }

  lemma {:induction false} SortSorted<T>(s: seq<T>, key: T -> int)
    ensures Sorted(Sort(s, key), key)
    ensures multiset(Sort(s, key)) == multiset(s)
  {
    if s != [] {
      var l := |s| - 1;
      assert s == s[..l] + [s[l]];
      SortSorted(s[..l], key);
      PlaceSorted(Sort(s[..l], key), s[l], key);
      PlaceElements(Sort(s[..l], key), s[l], key);
    }
  }

  lemma {:induction false} FilterMembers<T>(s: seq<T>, keep: T -> bool)
    ensures forall x <- Filter(s, keep) :: x in s && keep(x)
    ensures forall x <- s :: keep(x) ==> x in Filter(s, keep)
  {
    if s != [] {
      FilterMembers(s[..|s| - 1], keep);
      assert s == s[..|s| - 1] + [s[|s| - 1]];
    }
  }

  lemma FilterSnoc<T>(s: seq<T>, x: T, keep: T -> bool)
    ensures Filter(s + [x], keep) == Filter(s, keep) + if keep(x) then [x] else []
  {
    assert (s + [x])[..|s|] == s;
  }

  lemma PlaceAtEnd<T>(s: seq<T>, x: T, key: T -> int)
    requires forall y <- s :: key(y) <= key(x)
    ensures Place(s, x, key) == s + [x]
  {
  }

  lemma FilterPlaceAtEnd<T>(s: seq<T>, x: T, key: T -> int, keep: T -> bool)
    requires forall y <- s :: key(y) <= key(x)
    ensures Filter(Place(s, x, key), keep) ==
            if keep(x) then Place(Filter(s, keep), x, key) else Filter(s, keep)
  {
    PlaceAtEnd(s, x, key);
    FilterSnoc(s, x, keep);
    FilterMembers(s, keep);
    PlaceAtEnd(Filter(s, keep), x, key);
  }

  lemma {:induction false} FilterPlace<T>(s: seq<T>, x: T, key: T -> int, keep: T -> bool)
    requires Sorted(s, key)
    ensures Filter(Place(s, x, key), keep) ==
            if keep(x) then Place(Filter(s, keep), x, key) else Filter(s, keep)
  {
    if s == [] || key(s[|s| - 1]) <= key(x) {
      FilterPlaceAtEnd(s, x, key, keep);
    } else {
      var l := |s| - 1;
      FilterPlace(s[..l], x, key, keep);
      FilterSnoc(Place(s[..l], x, key), s[l], keep);
      PlaceSnoc(Filter(s[..l], keep), s[l], x, key);
      if !keep(s[l]) {
        assert Filter(s, keep) == Filter(s[..l], keep);
        assert Filter(Place(s, x, key), keep) == Filter(Place(s[..l], x, key), keep);
      }
    }
  }

  lemma PlaceSnoc<T>(s: seq<T>, y: T, x: T, key: T -> int)
    requires key(y) > key(x)
    ensures Place(s + [y], x, key) == Place(s, x, key) + [y]
  {
    assert (s + [y])[..|s|] == s;
  }

  lemma SortSnoc<T>(s: seq<T>, x: T, key: T -> int)
    ensures Sort(s + [x], key) == Place(Sort(s, key), x, key)
  {
    assert (s + [x])[..|s|] == s;
  }

  /** Filtering before or after a stable sort is the same. */
  lemma {:induction false} FilterSort<T>(s: seq<T>, key: T -> int, keep: T -> bool)
    ensures Filter(Sort(s, key), keep) == Sort(Filter(s, keep), key)
  {
    if s != [] {
      var l := |s| - 1;
      FilterSort(s[..l], key, keep);
      SortSorted(s[..l], key);
      FilterPlace(Sort(s[..l], key), s[l], key, keep);
      var f := Filter(s[..l], keep);
      SortSnoc(f, s[l], key);
      assert Filter(s, keep) == if keep(s[l]) then f + [s[l]] else f;
    }
  }

  /** The last of the elements with the greatest key. */
  function Best<T>(s: seq<T>, key: T -> int): Option<T> {
    if s == [] then None
    else
      var x, b := s[|s| - 1], Best(s[..|s| - 1], key);
      if b == None || key(b.value) <= key(x) then Some(x) else b
  }

  lemma {:induction false} BestInside<T>(s: seq<T>, key: T -> int)
    ensures Best(s, key) == None <==> s == []
    ensures Best(s, key).Some? ==> Best(s, key).value in s
  {
    if s != [] {
      BestInside(s[..|s| - 1], key);
    }
  }

  /** Dropping elements leaves the best one in place if and only if it is kept. */
  lemma {:induction false} BestOfFilter<T>(s: seq<T>, key: T -> int, keep: T -> bool)
    ensures Best(Filter(s, keep), key) == Best(s, key) <==> (Best(s, key).Some? ==> keep(Best(s, key).value))
  {
    BestInside(Filter(s, keep), key);
    FilterMembers(s, keep);
    if s != [] && keep(Best(s, key).value) {
      KeptBestStays(s, key, keep);
    }
  }

  lemma {:induction false} KeptBestStays<T>(s: seq<T>, key: T -> int, keep: T -> bool)
    requires s != [] && keep(Best(s, key).value)
    ensures Best(Filter(s, keep), key) == Best(s, key)
  {
    var l := |s| - 1;
    assert s == s[..l] + [s[l]];
    FilterSnoc(s[..l], s[l], keep);
    var f := Filter(s[..l], keep);
    if keep(s[l]) {
      BestSnoc(f, s[l], key);
    } else {
      assert f + [] == f;
    }
    if Best(s, key) == Best(s[..l], key) && l > 0 && keep(Best(s[..l], key).value) {
      KeptBestStays(s[..l], key, keep);
    } else {
      BestIsGreatest(Filter(s[..l], keep), key);
      BestIsGreatest(s[..l], key);
      FilterMembers(s[..l], keep);
    }
  }

  lemma {:induction false} BestIsGreatest<T>(s: seq<T>, key: T -> int)
    ensures Best(s, key).Some? <==> s != []
    ensures Best(s, key).Some? ==> Best(s, key).value in s && forall x <- s :: key(x) <= key(Best(s, key).value)
  {
    if s != [] {
      BestIsGreatest(s[..|s| - 1], key);
    }
  }

  /** The last element after a stable sort is the last of the greatest. */
  lemma {:induction false} LastOfSort<T>(s: seq<T>, key: T -> int)
    requires s != []
    ensures Sort(s, key) != [] && Best(s, key) == Some(Sort(s, key)[|Sort(s, key)| - 1])
  {
    var l := |s| - 1;
    if l > 0 {
      LastOfSort(s[..l], key);
    }
  }

  /** Lexicographic comparison by a first key and then by a second. */
  predicate LexAtMost<T>(a: T, b: T, first: T -> int, second: T -> int) {
    first(a) < first(b) || (first(a) == first(b) && second(a) <= second(b))
  }

  lemma BestSnoc<T>(s: seq<T>, x: T, key: T -> int)
    ensures Best(s + [x], key) ==
            if Best(s, key) == None || key(Best(s, key).value) <= key(x) then Some(x) else Best(s, key)
  {
    assert (s + [x])[..|s|] == s;
  }

  ghost predicate Lexicographic<T(!new)>(both: T -> int, first: T -> int, second: T -> int) {
    forall a, b :: both(a) <= both(b) <==> LexAtMost(a, b, first, second)
  }

  lemma {:induction false} BestOfPlace<T(!new)>(s: seq<T>, x: T, first: T -> int, second: T -> int, both: T -> int)
    requires Sorted(s, second) && Lexicographic(both, first, second)
    ensures var b := Best(s, first);
            Best(Place(s, x, second), first) ==
            if b == None || both(b.value) <= both(x) then Some(x) else b
  {
    BestInside(s, first);
    if s == [] {
      assert [x][..0] == [];
    } else {
      var l := |s| - 1;
      var b := Best(s, first).value;
      if second(s[l]) <= second(x) {
        BestSnoc(s, x, first);
        assert second(b) <= second(x);
        assert both(b) <= both(x) <==> LexAtMost(b, x, first, second);
      } else {
        BestOfPlace(s[..l], x, first, second, both);
        BestSnoc(Place(s[..l], x, second), s[l], first);
        BestInside(s[..l], first);
        assert both(s[l]) <= both(x) <==> LexAtMost(s[l], x, first, second);
        if l > 0 {
          var b' := Best(s[..l], first).value;
          assert both(b') <= both(x) <==> LexAtMost(b', x, first, second);
          assert second(b') <= second(s[l]);
        }
      }
    }
  }

  /** Picking the longest, later ones first, in a list sorted by the second key
      is picking the lexicographically greatest in the unsorted list. */
  lemma {:induction false} BestOfSort<T(!new)>(s: seq<T>, first: T -> int, second: T -> int, both: T -> int)
    requires Lexicographic(both, first, second)
    ensures Best(Sort(s, second), first) == Best(s, both)
  {
    if s != [] {
      var l := |s| - 1;
      BestOfSort(s[..l], first, second, both);
      SortSorted(s[..l], second);
      BestOfPlace(Sort(s[..l], second), s[l], first, second, both);
    }
  }
}
