/** Cardinalities of finite sets of identifiers. */
module Sets {

  lemma {:induction false} FullSubset(part: set<string>, whole: set<string>)
    requires part <= whole && |part| == |whole|
    ensures part == whole
  {
    if part != whole {
      var x :| x in whole && x !in part;
      assert |part + {x}| == |part| + 1;
      SubsetCardinality(part + {x}, whole);
    }
  }

  lemma {:induction false} SubsetCardinality(part: set<string>, whole: set<string>)
    requires part <= whole
    ensures |part| <= |whole|
  {
    if x :| x in part {
      SubsetCardinality(part - {x}, whole - {x});
    }
  }

  lemma {:induction false} SubsetOfSize(s: set<string>, n: nat) returns (u: set<string>)
    requires n <= |s|
    ensures u <= s && |u| == n
  {
    if n == 0 {
      u := {};
    } else {
      var x :| x in s;
      u := SubsetOfSize(s - {x}, n - 1);
      u := u + {x};
    }
  }
}
