/**
 The sorted id list: the keys of the interval map, collected in map
 iteration order and then put in ascending order by `sort.Strings`.
 */
module Sorting {
  import opened Text

  /** Ascending with no repeats under Go's string order. */
  ghost predicate StrictlySorted(s: seq<string>) {
    forall i, j :: 0 <= i < j < |s| ==> Less(s[i], s[j])
  }

  /** Insert a new key into an ascending key list at its place. */
  function Insert(s: seq<string>, x: string): (r: seq<string>)
    requires StrictlySorted(s)
    requires x !in s
    ensures StrictlySorted(r)
    ensures |r| == |s| + 1
    ensures forall y :: y in r <==> y in s || y == x
    decreases |s|
  {
    if |s| == 0 then [x]
    else if Less(x, s[0]) then
      assert StrictlySorted([x] + s) by {
        forall j | 0 < j < |s| {
          LessTransitive(x, s[0], s[j]);
        }
      }
      [x] + s
    else
      assert Less(s[0], x) by {
        LessTotal(x, s[0]);
      }
      var tail := Insert(s[1..], x);
      assert forall y :: y in s[1..] ==> Less(s[0], y);
      [s[0]] + tail
  }

  /**
   Lines 142-145: every key of the map, each exactly once, in ascending
   order, whatever order the map is walked in.
   */
  method SortedKeys<T>(m: map<string, T>) returns (keys: seq<string>)
    ensures StrictlySorted(keys)
    ensures forall k :: k in keys <==> k in m
    ensures |keys| == |m|
    ensures forall i, j :: 0 <= i < j < |keys| ==> keys[i] != keys[j]
  {
    keys := [];
    var rest := m.Keys;
    while rest != {}
      invariant rest <= m.Keys
      invariant StrictlySorted(keys)
      invariant forall k :: k in keys <==> k in m && k !in rest
      invariant |keys| + |rest| == |m|
      decreases rest
    {
      var k :| k in rest;
      keys := Insert(keys, k);
      rest := rest - {k};
    }
    forall i, j | 0 <= i < j < |keys|
      ensures keys[i] != keys[j]
    {
      if keys[i] == keys[j] {
        LessIrreflexive(keys[i]);
      }
    }
  }

  /**
   Two ascending key lists holding the same keys are the same list, so the
   order in which the map was walked leaves no trace in the sorted list.
   */
  lemma {:induction false} SortedUnique(s: seq<string>, t: seq<string>)
    requires StrictlySorted(s) && StrictlySorted(t)
    requires forall k :: k in s <==> k in t
    ensures s == t
    decreases |s|
  {
    assert |s| > 0 ==> s[0] in t;
    assert |t| > 0 ==> t[0] in s;
    if |s| > 0 {
      if s[0] != t[0] {
        assert t[0] in s;
        var i :| 0 <= i < |s| && s[i] == t[0];
        var j :| 0 <= j < |t| && t[j] == s[0];
        assert i > 0 && j > 0;
        LessAsymmetric(s[0], s[i]);
      }
      forall k
        ensures k in s[1..] <==> k in t[1..]
      {
        if k in s[1..] {
          var i :| 1 <= i < |s| && s[i] == k;
          LessIrreflexive(k);
          assert k != s[0];
          assert k in t;
        }
        if k in t[1..] {
          var j :| 1 <= j < |t| && t[j] == k;
          LessIrreflexive(k);
          assert k != t[0];
          assert k in s;
        }
      }
      SortedUnique(s[1..], t[1..]);
      assert s == [s[0]] + s[1..];
      assert t == [t[0]] + t[1..];
    }
  }
}
