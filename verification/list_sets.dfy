/** The list set-operations of generic_utils.py: each converts its arguments to
    Python sets, combines them, and lists the resulting set in whatever order
    the set iterates. */
module ListSets {

  ghost predicate NoDuplicates<T>(xs: seq<T>) {
    forall i, j :: 0 <= i < j < |xs| ==> xs[i] != xs[j]
  }

  /** `set(xs)`: the elements of a list, duplicates collapsed. */
  function Elems<T>(xs: seq<T>): set<T> {
    set x | x in xs
  }

  /** A list without repeats has as many elements as its set; a list with a
      repeat has more. */
  lemma {:induction false} DistinctIffCardIsLength<T(!new)>(xs: seq<T>)
    ensures |Elems(xs)| <= |xs|
    ensures NoDuplicates(xs) <==> |Elems(xs)| == |xs|
  {
    if |xs| > 0 {
      var init, last := xs[..|xs| - 1], xs[|xs| - 1];
      DistinctIffCardIsLength(init);
      assert Elems(xs) == Elems(init) + {last};
      if last in init {
        var i :| 0 <= i < |init| && init[i] == last;
        assert xs[i] == xs[|xs| - 1];
        assert Elems(xs) == Elems(init);
      } else {
        assert |Elems(xs)| == |Elems(init)| + 1;
        if NoDuplicates(init) {
          forall i, j | 0 <= i < j < |xs|
            ensures xs[i] != xs[j]
          {
            if j < |xs| - 1 {
              assert xs[i] == init[i] && xs[j] == init[j];
            } else {
              assert xs[i] in init;
            }
          }
        } else {
          var i, j :| 0 <= i < j < |init| && init[i] == init[j];
          assert xs[i] == xs[j];
        }
      }
    }
  }

  /** `list(s)`: the elements of a set in some order the set chooses.
      Python fixes no order, so each step takes an arbitrary remaining element. */
  method ListOfSet<T(==, !new)>(s: set<T>) returns (xs: seq<T>)
    ensures forall x :: x in xs <==> x in s
    ensures Elems(xs) == s
    ensures NoDuplicates(xs)
    ensures |xs| == |s|
  {
    xs := [];
    var rest := s;
    while rest != {}
      invariant Elems(xs) + rest == s
      invariant Elems(xs) !! rest
      invariant NoDuplicates(xs)
      decreases rest
    {
      var x :| x in rest;
      assert (xs + [x])[..|xs|] == xs;
      xs := xs + [x];
      rest := rest - {x};
    }
    DistinctIffCardIsLength(xs);
  }

  /** Result contract shared by the three helpers: a repeat-free listing of
      exactly the set `s`. */
  ghost predicate ListsExactly<T(!new)>(r: seq<T>, s: set<T>) {
    Elems(r) == s && NoDuplicates(r)
  }

  /** `intersect_list`: the elements found in both lists. */
  method IntersectList<T(==, !new)>(list1: seq<T>, list2: seq<T>) returns (r: seq<T>)
    ensures forall x :: x in r <==> x in list1 && x in list2
    ensures NoDuplicates(r)
    ensures |r| == |Elems(list1) * Elems(list2)|
    ensures ListsExactly(r, Elems(list1) * Elems(list2))
  {
    r := ListOfSet(Elems(list1) * Elems(list2));
  }

  /** `difference_list`: the elements of the first list missing from the second. */
  method DifferenceList<T(==, !new)>(list1: seq<T>, list2: seq<T>) returns (r: seq<T>)
    ensures forall x :: x in r <==> x in list1 && x !in list2
    ensures NoDuplicates(r)
    ensures |r| == |Elems(list1) - Elems(list2)|
    ensures ListsExactly(r, Elems(list1) - Elems(list2))
  {
    r := ListOfSet(Elems(list1) - Elems(list2));
  }

  /** `union_list`: the elements found in either list. */
  method UnionList<T(==, !new)>(list1: seq<T>, list2: seq<T>) returns (r: seq<T>)
    ensures forall x :: x in r <==> x in list1 || x in list2
    ensures NoDuplicates(r)
    ensures |r| == |Elems(list1) + Elems(list2)|
    ensures ListsExactly(r, Elems(list1) + Elems(list2))
  {
    r := ListOfSet(Elems(list1) + Elems(list2));
  }

  /** How the three results relate in size: the intersection and the
      difference split the first list's set, and the union counts the shared
      elements once. */
  lemma HelperSizes<T(!new)>(list1: seq<T>, list2: seq<T>, inter: seq<T>, diff: seq<T>, union: seq<T>)
    requires ListsExactly(inter, Elems(list1) * Elems(list2))
    requires ListsExactly(diff, Elems(list1) - Elems(list2))
    requires ListsExactly(union, Elems(list1) + Elems(list2))
    ensures |inter| + |diff| == |Elems(list1)|
    ensures |union| + |inter| == |Elems(list1)| + |Elems(list2)|
  {
    DistinctIffCardIsLength(inter);
    DistinctIffCardIsLength(diff);
    DistinctIffCardIsLength(union);
    SetSizes(Elems(list1), Elems(list2));
  }

  lemma SetSizes<T>(a: set<T>, b: set<T>)
    ensures |a * b| + |a - b| == |a|
    ensures |a + b| + |a * b| == |a| + |b|
  {
  }

  lemma ElemsOfThree<T(!new)>(x: T, y: T, z: T)
    ensures Elems([x, y, z]) == {x, y, z}
  {
  }

  /** The intersection example: [1, 2, 3] and [2, 3, 4] share exactly 2 and 3,
      so the listing has two entries. */
  lemma IntersectExample(r: seq<int>)
    requires ListsExactly(r, Elems([1, 2, 3]) * Elems([2, 3, 4]))
    ensures Elems(r) == {2, 3}
    ensures |r| == 2
  {
    ElemsOfThree(1, 2, 3);
    ElemsOfThree(2, 3, 4);
    assert {1, 2, 3} * {2, 3, 4} == {2, 3};
    DistinctIffCardIsLength(r);
  }
}
