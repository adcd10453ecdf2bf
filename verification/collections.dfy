/** Facts about sequences used as Go slices, and Go's iteration over a map's keys. */
module Collections {

  function ToSet<T>(s: seq<T>): (r: set<T>) {
    set x | x in s
  }

  predicate NoDuplicates<T(==)>(s: seq<T>) {
    forall i, j :: 0 <= i < j < |s| ==> s[i] != s[j]
  }

  /** How many positions of `s` hold a value that already occurred earlier:
      the number of times a "seen before?" loop over `s` takes its duplicate branch. */
  function RepeatCount<T(==)>(s: seq<T>): (r: nat) {
    if |s| == 0 then 0
    else RepeatCount(s[..|s| - 1]) + (if s[|s| - 1] in s[..|s| - 1] then 1 else 0)
  }

  lemma EmptyToSet<T>(s: seq<T>)
    ensures |s| == 0 <==> ToSet(s) == {}
  {
    if |s| > 0 {
      assert s[0] in ToSet(s);
    }
  }

  lemma ToSetSnoc<T>(p: seq<T>, x: T)
    ensures ToSet(p + [x]) == ToSet(p) + {x}
  {
    assert forall y :: y in p + [x] <==> y in p || y == x;
  }

  lemma RepeatCountSnoc<T>(p: seq<T>, x: T)
    ensures RepeatCount(p + [x]) == RepeatCount(p) + (if x in p then 1 else 0)
  {
    assert (p + [x])[..|p|] == p;
  }

  /** Every repeat is one position that adds nothing to the set of values. */
  lemma {:induction false} RepeatCountIsExcess<T>(s: seq<T>)
    ensures RepeatCount(s) + |ToSet(s)| == |s|
  {
    if |s| > 0 {
      var p, x := s[..|s| - 1], s[|s| - 1];
      assert s == p + [x];
      RepeatCountIsExcess(p);
      ToSetSnoc(p, x);
      if x in p {
        assert ToSet(s) == ToSet(p);
      } else {
        assert x !in ToSet(p);
      }
    }
  }

  lemma {:induction false} RepeatCountZero<T>(s: seq<T>)
    ensures RepeatCount(s) == 0 <==> NoDuplicates(s)
  {
    if |s| > 0 {
      var p, x := s[..|s| - 1], s[|s| - 1];
      assert s == p + [x];
      RepeatCountZero(p);
      if NoDuplicates(s) {
        assert NoDuplicates(p) by {
          forall i, j | 0 <= i < j < |p| ensures p[i] != p[j] {
            assert p[i] == s[i] && p[j] == s[j];
          }
        }
        assert x !in p by {
          forall i | 0 <= i < |p| ensures p[i] != x {
            assert p[i] == s[i];
          }
        }
      }
      if RepeatCount(s) == 0 {
        assert x !in p && NoDuplicates(p);
        forall i, j | 0 <= i < j < |s| ensures s[i] != s[j] {
          if j < |p| {
            assert s[i] == p[i] && s[j] == p[j];
          } else {
            assert s[i] == p[i];
          }
        }
      }
    }
  }

  /** A sequence without repeats has as many elements as distinct values. */
  lemma DistinctCount<T>(s: seq<T>)
    ensures NoDuplicates(s) <==> |ToSet(s)| == |s|
  {
    RepeatCountIsExcess(s);
    RepeatCountZero(s);
  }

  /** Go's `for k := range m` over a map's keys: every key once, in an order the
      language leaves unspecified (the choice below is arbitrary). */
  method SetToSeq<T(==)>(s: set<T>) returns (r: seq<T>)
    ensures ToSet(r) == s
    ensures NoDuplicates(r)
  {
    r := [];
    var rest := s;
    while rest != {}
      invariant ToSet(r) + rest == s
      invariant ToSet(r) !! rest
      invariant NoDuplicates(r)
      decreases |rest|
    {
      var x :| x in rest;
      ToSetSnoc(r, x);
      r := r + [x];
      rest := rest - {x};
    }
  }
}
