/** List comprehensions and boolean masks: keep the elements a selector accepts, in order. */
module Lists {
  import opened Wrappers

  /** `[g(x) for x in s if g(x) is not None]`, written once for every filter of the model. */
  function FilterMap<T, U>(s: seq<T>, select: T -> Option<U>): (r: seq<U>)
    ensures |r| <= |s|
  {
    if s == [] then []
    else
      var tail := FilterMap(s[1..], select);
      match select(s[0])
      case Some(y) => [y] + tail
      case None => tail
  }

  /** Filtering distributes over concatenation: the kept elements stay in their original order. */
  lemma {:induction false} FilterMapAppend<T, U>(a: seq<T>, b: seq<T>, select: T -> Option<U>)
    ensures FilterMap(a + b, select) == FilterMap(a, select) + FilterMap(b, select)
  {
    if a == [] {
      assert a + b == b;
    } else {
      assert (a + b)[0] == a[0];
      assert (a + b)[1..] == a[1..] + b;
      FilterMapAppend(a[1..], b, select);
    }
  }

  /** An element is kept exactly when some position of the input selects it. */
  lemma {:induction false} FilterMapMember<T, U>(s: seq<T>, select: T -> Option<U>, y: U)
    ensures y in FilterMap(s, select) <==> exists i :: 0 <= i < |s| && select(s[i]) == Some(y)
  {
    if s != [] {
      FilterMapMember(s[1..], select, y);
      if y in FilterMap(s[1..], select) {
        var i :| 0 <= i < |s[1..]| && select(s[1..][i]) == Some(y);
        assert select(s[i + 1]) == Some(y);
      }
      if exists i :: 0 <= i < |s| && select(s[i]) == Some(y) {
        var i :| 0 <= i < |s| && select(s[i]) == Some(y);
        if i > 0 {
          assert select(s[1..][i - 1]) == Some(y);
        }
      }
    }
  }

  /** Nothing is kept exactly when the selector rejects every element. */
  lemma {:induction false} FilterMapEmpty<T, U>(s: seq<T>, select: T -> Option<U>)
    ensures FilterMap(s, select) == [] <==> forall i :: 0 <= i < |s| ==> select(s[i]).None?
  {
    if s != [] {
      FilterMapEmpty(s[1..], select);
      if FilterMap(s, select) == [] {
        forall i | 0 <= i < |s| ensures select(s[i]).None? {
          if i > 0 {
            assert s[i] == s[1..][i - 1];
          }
        }
      }
      if forall i :: 0 <= i < |s| ==> select(s[i]).None? {
        assert forall i :: 0 <= i < |s[1..]| ==> s[1..][i] == s[i + 1];
      }
    }
  }

  /** An element that is not selected leaves no trace, wherever it sits. */
  lemma FilterMapSkip<T, U>(a: seq<T>, x: T, b: seq<T>, select: T -> Option<U>)
    requires select(x).None?
    ensures FilterMap(a + [x] + b, select) == FilterMap(a + b, select)
  {
    FilterMapAppend(a + [x], b, select);
    FilterMapAppend(a, [x], select);
    FilterMapAppend(a, b, select);
    assert FilterMap([x], select) == [];
  }

  /** The first `n` elements (`list[:n]`), or all of them when there are fewer. */
  function Take<T>(s: seq<T>, n: nat): (r: seq<T>)
    ensures |r| == (if |s| <= n then |s| else n)
    ensures r == s[..|r|]
  {
    if |s| <= n then s else s[..n]
  }
}
