/** A set that is not empty has an element, in the form an assign-such-that needs it. */
module Sets {

  lemma {:induction false} NoElement(s: set<int>)
    requires forall x: int :: x !in s
    ensures s == {}
  {
    assert s <= {} by {
      forall x: int | x in s ensures false {
      }
    }
  }

  lemma {:induction false} HasElement(s: set<int>)
    requires s != {}
    ensures exists x: int :: x in s
  {
    if forall x: int :: x !in s {
      NoElement(s);
    }
  }

  lemma {:induction false} SubsetIsSmaller(a: set<int>, b: set<int>)
    requires a <= b
    ensures |a| <= |b|
  {
    assert a + (b - a) == b;
  }
}
