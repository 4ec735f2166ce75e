/** Small shared vocabulary: optional values, results, and sequences without repetition. */
module Common {

  datatype Option<+T> = None | Some(value: T)

  datatype Result<+T> = Ok(value: T) | Err(error: string)

  /** A float64 the gateway never computes with on the delivery path: an opaque token. */
  datatype Float = Float(bits: nat)

  lemma NonEmpty(s: set<int>)
    requires s != {}
    ensures exists id :: id in s
  {
    if forall id :: id !in s {}
  }

  ghost predicate Distinct<T>(s: seq<T>) {
    forall i, j :: 0 <= i < j < |s| ==> s[i] != s[j]
  }

  /** Distinct elements counted one by one: the set of a distinct sequence is as big as the sequence. */
  lemma {:induction false} DistinctSize<T>(s: seq<T>)
    requires Distinct(s)
    ensures |set x | x in s| == |s|
  {
    if s != [] {
      var front, last := s[..|s| - 1], s[|s| - 1];
      DistinctSize(front);
      assert (set x | x in s) == (set x | x in front) + {last};
    }
  }

  lemma SubsetSize<T>(a: set<T>, b: set<T>)
    requires a <= b
    ensures |a| <= |b|
    ensures |a| == |b| ==> a == b
  {
    assert |b - a| == |b| - |a| by {
      assert b == a + (b - a);
    }
    assert b == a + (b - a);
  }
}
