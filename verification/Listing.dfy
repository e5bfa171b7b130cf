/** Sorted lists of finite sets of names. Names are integers: only equality and order matter. */
module Listing {

  type Name = int

  lemma Pick<T>(s: set<T>) returns (x: T)
    requires s != {}
    ensures x in s
  {
    x :| x in s;
  }

  predicate IsLeast(m: Name, s: set<Name>) {
    m in s && forall x :: x in s ==> m <= x
  }

  lemma LesserOfTwo(a: Name, b: Name, s: set<Name>)
    requires a in s && IsLeast(b, s - {a})
    ensures IsLeast(if a <= b then a else b, s)
  {
    forall x | x in s ensures x == a || b <= x {
      assert x == a || x in s - {a};
    }
  }

  lemma {:induction false} LeastExists(s: set<Name>)
    requires s != {}
    ensures exists m :: IsLeast(m, s)
  {
    var a := Pick(s);
    if s - {a} == {} {
      assert s == {a};
      assert IsLeast(a, s);
    } else {
      LeastExists(s - {a});
      hide IsLeast;
      var b :| IsLeast(b, s - {a});
      LesserOfTwo(a, b, s);
    }
  }

  function Least(s: set<Name>): (m: Name)
    requires s != {}
    ensures m in s && forall x :: x in s ==> m <= x
  {
    LeastExists(s);
    var m :| IsLeast(m, s);
    m
  }

  /** The set as a list, least first. */
  function Sorted(s: set<Name>): seq<Name> {
    if s == {} then [] else [Least(s)] + Sorted(s - {Least(s)})
  }

  ghost predicate Lists(names: seq<Name>, s: set<Name>) {
    && (forall x :: x in names <==> x in s)
    && (forall i, j :: 0 <= i < j < |names| ==> names[i] < names[j])
    && |names| == |s|
  }

  /** Putting an element below all the others in front keeps a list sorted and complete. */
  lemma FrontLists(m: Name, names: seq<Name>, rest: set<Name>)
    requires Lists(names, rest) && forall x :: x in rest ==> m < x
    ensures Lists([m] + names, rest + {m})
  {
    var all := [m] + names;
    forall i, j | 0 <= i < j < |all| ensures all[i] < all[j] {
      assert all[j] == names[j - 1] && names[j - 1] in names;
    }
  }

  /** The list holds every element exactly once, in ascending order. */
  lemma {:induction false} SortedListsTheSet(s: set<Name>)
    ensures Lists(Sorted(s), s)
  {
    hide Lists;
    if s == {} {
      NothingToList();
    } else {
      var m, rest := Least(s), s - {Least(s)};
      SortedListsTheSet(rest);
      FrontLists(m, Sorted(rest), rest);
      assert s == rest + {m};
    }
  }

  lemma NothingToList()
    ensures Lists([], {})
  {}

  /** A list of a set's elements in no particular order. */
  method AnyOrder<T(==)>(s: set<T>) returns (list: seq<T>)
    ensures |list| == |s| && forall x :: x in list <==> x in s
  {
    list := [];
    var rest := s;
    while rest != {}
      invariant rest <= s && |list| + |rest| == |s|
      invariant forall x :: x in s <==> x in list || x in rest
      invariant forall x :: x in list ==> x in s
      decreases rest
    {
      var x :| x in rest;
      list := list + [x];
      rest := rest - {x};
    }
  }
}
