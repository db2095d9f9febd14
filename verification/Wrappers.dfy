/** A value or none. */
module Wrappers {
  datatype Option<T> = None | Some(value: T)
}

/** The labels of assembly text, and sets of them. */
module Labels {
  datatype Label = Label(text: string)

  lemma Smaller(u: set<Label>, seen: set<Label>, l: Label)
    requires l in u && l !in seen
    ensures |u - (seen + {l})| < |u - seen|
  {
    assert u - seen == (u - (seen + {l})) + {l};
  }

  lemma SubsetSize(a: set<Label>, b: set<Label>)
    requires a <= b
    ensures |a| <= |b| && (a != b ==> |a| < |b|)
  {
    assert b == a + (b - a);
    if a != b {
      var x :| x in b - a;
      assert |b - a| > 0;
    }
  }

  /** More found is less left. */
  lemma Shrinks(u: set<Label>, a: set<Label>, b: set<Label>)
    requires a <= b <= u && a != b
    ensures |u - b| < |u - a|
  {
    SubsetSize(a, b);
    assert b == a + (b - a);
    var x :| x in b - a;
    assert x in u - a && x !in u - b;
    SubsetSize(u - b, u - a);
  }

  /** The elements of a set in some order. */
  method Listed(s: set<Label>) returns (ls: seq<Label>)
    ensures forall x :: x in ls <==> x in s
  {
    ls := [];
    var left := s;
    while left != {}
      invariant left <= s && forall x :: x in ls <==> x in s - left
      decreases left
    {
      var x :| x in left;
      ls, left := ls + [x], left - {x};
    }
  }
}
