/** Small building blocks shared by the whole model. */
module Common {

  /** An optional value: `undefined` / `null` in the source is `None`. */
  datatype Option<+T> = None | Some(value: T)

  /** No element occurs twice. */
  ghost predicate Distinct<T>(s: seq<T>)
  {
    forall i, j :: 0 <= i < j < |s| ==> s[i] != s[j]
  }

  /** JavaScript truthiness of an optional string: present and not the empty string. */
  predicate Truthy(s: Option<string>)
  {
    s.Some? && s.value != ""
  }

  /** A subset is no larger than its superset. */
  lemma {:induction false} SubsetCardinality<T>(a: set<T>, b: set<T>)
    requires a <= b
    ensures |a| <= |b|
    decreases a
  {
    if a != {} {
      var x :| x in a;
      SubsetCardinality(a - {x}, b - {x});
    }
  }

  /**
   * A sequence without repetitions drawn from `u` is no longer than `u`,
   * and when it is exactly as long it mentions every element of `u`.
   */
  lemma {:induction false} DistinctWithin<T>(s: seq<T>, u: set<T>)
    requires Distinct(s)
    requires forall i :: 0 <= i < |s| ==> s[i] in u
    ensures |s| <= |u|
    ensures |s| == |u| ==> forall x :: x in u ==> x in s
    decreases |s|
  {
    if s != [] {
      var t := s[1..];
      assert Distinct(t) by {
        forall i, j | 0 <= i < j < |t| ensures t[i] != t[j] {
          assert t[i] == s[i + 1] && t[j] == s[j + 1];
        }
      }
      forall i | 0 <= i < |t| ensures t[i] in u - {s[0]} {
        assert t[i] == s[i + 1];
      }
      DistinctWithin(t, u - {s[0]});
      if |s| == |u| {
        forall x | x in u ensures x in s {
          if x != s[0] {
            assert x in u - {s[0]};
            var k :| 0 <= k < |t| && t[k] == x;
            assert s[k + 1] == x;
          }
        }
      }
    }
  }

  /** A sequence whose elements cover `u` is at least as long as `u`. */
  lemma {:induction false} CoveringLength<T>(s: seq<T>, u: set<T>)
    requires forall x :: x in u ==> x in s
    ensures |u| <= |s|
    decreases |s|
  {
    if s != [] {
      var t := s[1..];
      forall x | x in u - {s[0]} ensures x in t {
        var k :| 0 <= k < |s| && s[k] == x;
        assert k != 0;
        assert t[k - 1] == x;
      }
      CoveringLength(t, u - {s[0]});
    }
  }
}
