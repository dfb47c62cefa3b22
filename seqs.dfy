/** `Array.prototype.filter` and `find` over immutable sequences, and what they keep. */
module Seqs {
  import opened Wrappers

  function Filter<T>(s: seq<T>, keep: T -> bool): (r: seq<T>)
    ensures |r| <= |s|
    ensures forall i :: 0 <= i < |r| ==> r[i] in s && keep(r[i])
    ensures forall i :: 0 <= i < |s| && keep(s[i]) ==> s[i] in r
  {
    if s == [] then []
    else Filter(s[..|s| - 1], keep) + (if keep(s[|s| - 1]) then [s[|s| - 1]] else [])
  }

  /** Filtering distributes over concatenation: kept elements stay in their order. */
  lemma {:induction false} FilterAppend<T>(a: seq<T>, b: seq<T>, keep: T -> bool)
    ensures Filter(a + b, keep) == Filter(a, keep) + Filter(b, keep)
    decreases |b|
  {
    if b != [] {
      var b' := b[..|b| - 1];
      assert (a + b)[..|a + b| - 1] == a + b';
      FilterAppend(a, b', keep);
    } else {
      assert a + b == a;
    }
  }

  /** Every element is kept as often as it occurs when it passes, and never otherwise. */
  lemma {:induction false} FilterMultiplicity<T>(s: seq<T>, keep: T -> bool, x: T)
    ensures multiset(Filter(s, keep))[x] == if keep(x) then multiset(s)[x] else 0
  {
    if s != [] {
      var s' := s[..|s| - 1];
      assert s == s' + [s[|s| - 1]];
      FilterMultiplicity(s', keep, x);
    }
  }

  /** A filter that keeps everything changes nothing. */
  lemma {:induction false} FilterKeepAll<T>(s: seq<T>, keep: T -> bool)
    requires forall x :: x in s ==> keep(x)
    ensures Filter(s, keep) == s
  {
    if s != [] {
      var s' := s[..|s| - 1];
      assert s == s' + [s[|s| - 1]];
      FilterKeepAll(s', keep);
    }
  }

  /** A filter that keeps nothing leaves nothing. */
  lemma {:induction false} FilterKeepNone<T>(s: seq<T>, keep: T -> bool)
    requires forall x :: x in s ==> !keep(x)
    ensures Filter(s, keep) == []
  {
    if s != [] {
      FilterKeepNone(s[..|s| - 1], keep);
    }
  }

  /** A filter that keeps a prefix and drops the rest returns that prefix. */
  lemma FilterPrefix<T>(s: seq<T>, n: nat, keep: T -> bool)
    requires n <= |s|
    requires forall i :: 0 <= i < n ==> keep(s[i])
    requires forall i :: n <= i < |s| ==> !keep(s[i])
    ensures Filter(s, keep) == s[..n]
  {
    var front, back := s[..n], s[n..];
    forall x | x in front
      ensures keep(x)
    {
      var k :| 0 <= k < n && front[k] == x;
      assert x == s[k];
    }
    forall x | x in back
      ensures !keep(x)
    {
      var k :| 0 <= k < |back| && back[k] == x;
      assert x == s[n + k];
    }
    assert s == front + back;
    FilterAppend(front, back, keep);
    FilterKeepAll(front, keep);
    FilterKeepNone(back, keep);
  }

  /** `Array.prototype.find`: the first element that passes, if any. */
  function Find<T>(s: seq<T>, P: T -> bool): (r: Option<T>)
    ensures r.Some? ==> exists i :: 0 <= i < |s| && s[i] == r.value && P(s[i]) && forall j :: 0 <= j < i ==> !P(s[j])
    ensures r.None? ==> forall i :: 0 <= i < |s| ==> !P(s[i])
  {
    if s == [] then None
    else if P(s[0]) then Some(s[0])
    else
      var r := Find(s[1..], P);
      assert r.Some? ==> exists i :: 0 <= i < |s| && s[i] == r.value && P(s[i]) && forall j :: 0 <= j < i ==> !P(s[j]) by {
        if r.Some? {
          var i :| 0 <= i < |s| - 1 && s[1..][i] == r.value && P(s[1..][i]) && forall j :: 0 <= j < i ==> !P(s[1..][j]);
          assert s[i + 1] == r.value && forall j :: 0 <= j < i + 1 ==> !P(s[j]);
        }
      }
      r
  }
}
