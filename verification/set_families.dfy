/**
 How many subsets a finite set has.
 */
module SetFamilies {
  function Pow2(n: nat): (p: nat)
    ensures p >= 1 && (n >= 1 ==> p >= 2)
  {
    if n == 0 then 1 else 2 * Pow2(n - 1)
  }

  lemma RemovedDiffer(a: set<nat>, b: set<nat>, x: nat)
    requires a != b && x in a && x in b
    ensures a - {x} != b - {x}
  {
    assert (a - b) + (b - a) != {};
    var y :| y in (a - b) + (b - a);
    assert y in a - {x} <==> y !in b - {x};
  }

  function Removed(family: set<set<nat>>, x: nat): set<set<nat>> {
    set t | t in family :: t - {x}
  }

  /** Removing one element from sets that all have it keeps them apart. */
  lemma {:induction false} RemovedApart(family: set<set<nat>>, x: nat)
    requires forall t :: t in family ==> x in t
    ensures |Removed(family, x)| == |family|
    decreases |family|
  {
    if family != {} {
      var some :| some in family;
      var rest := family - {some};
      RemovedApart(rest, x);
      forall t | t in rest ensures t - {x} != some - {x} {
        RemovedDiffer(t, some, x);
      }
      assert some - {x} !in Removed(rest, x);
      assert Removed(family, x) == Removed(rest, x) + {some - {x}};
    }
  }

  lemma {:induction false} SubsetSize(a: set<set<nat>>, b: set<set<nat>>)
    requires a <= b
    ensures |a| <= |b|
    decreases |a|
  {
    if a != {} {
      var x :| x in a;
      SubsetSize(a - {x}, b - {x});
    }
  }

  function Without(family: set<set<nat>>, x: nat): set<set<nat>> { set t | t in family && x !in t }
  function With(family: set<set<nat>>, x: nat): set<set<nat>> { set t | t in family && x in t }

  lemma Splits(family: set<set<nat>>, x: nat)
    ensures |family| == |Without(family, x)| + |With(family, x)|
  {
    assert family == Without(family, x) + With(family, x);
    assert Without(family, x) !! With(family, x);
  }

  /** A family of subsets of a set of n elements has at most 2^n members. */
  lemma {:induction false} FamilyBound(family: set<set<nat>>, whole: set<nat>)
    requires forall t :: t in family ==> t <= whole
    ensures |family| <= Pow2(|whole|)
    decreases |whole|
  {
    if whole == {} {
      forall t | t in family ensures t in {{}} {
        assert t <= {};
        assert t == {};
      }
      SubsetSize(family, {{}});
    } else {
      var x :| x in whole;
      Splits(family, x);
      RemovedApart(With(family, x), x);
      FamilyBound(Without(family, x), whole - {x});
      FamilyBound(Removed(With(family, x), x), whole - {x});
    }
  }

  /** Leaving out the empty set and one other subset saves two. */
  lemma TwoLess(family: set<set<nat>>, other: set<nat>, whole: set<nat>)
    requires forall t :: t in family ==> t <= whole && t != {} && t != other
    requires other != {} && other <= whole
    ensures |family| + 2 <= Pow2(|whole|)
  {
    FamilyBound(family + {{}, other}, whole);
    assert |family + {{}, other}| == |family| + 2 by {
      assert family !! {{}, other};
    }
  }
}
