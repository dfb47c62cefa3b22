/** `nodes.sort((a, b) => b.properties.weight - a.properties.weight)`: an
    in-place stable sort (as `Array.prototype.sort` is), heaviest first.
    `SortDesc` is the order it produces; the array method is proved to
    produce it, and `SortDesc` is proved sorted, a permutation and stable. */
module NodeSort {
  import opened GraphTypes

  function Weight(n: Node): real {
    n.properties.weight
  }

  predicate SortedDesc(s: seq<Node>) {
    forall i, j :: 0 <= i < j < |s| ==> Weight(s[i]) >= Weight(s[j])
  }

  /** Where a stable insertion puts `x`: after every leading node at least as heavy. */
  function Place(s: seq<Node>, x: Node): (k: nat)
    ensures k <= |s|
    ensures forall i :: 0 <= i < k ==> Weight(s[i]) >= Weight(x)
    ensures k < |s| ==> Weight(s[k]) < Weight(x)
  {
    if s == [] || Weight(s[0]) < Weight(x) then 0 else 1 + Place(s[1..], x)
  }

  function Insert(s: seq<Node>, x: Node): seq<Node> {
    var k := Place(s, x);
    s[..k] + [x] + s[k..]
  }

  /** The nodes in the order the sort leaves them. */
  function SortDesc(s: seq<Node>): (r: seq<Node>)
    ensures |r| == |s|
  {
    if s == [] then [] else Insert(SortDesc(s[..|s| - 1]), s[|s| - 1])
  }

  /** In a sorted sequence, `x` goes exactly between the nodes at least as
      heavy and the lighter ones. */
  lemma PlaceIsSplit(s: seq<Node>, x: Node, j: nat)
    requires SortedDesc(s) && j <= |s|
    requires j == 0 || Weight(s[j - 1]) >= Weight(x)
    requires forall k :: j <= k < |s| ==> Weight(s[k]) < Weight(x)
    ensures Place(s, x) == j
  {
  }

  lemma InsertSorted(s: seq<Node>, x: Node)
    requires SortedDesc(s)
    ensures SortedDesc(Insert(s, x))
  {
    var k := Place(s, x);
    var r := Insert(s, x);
    forall i, j | 0 <= i < j < |r|
      ensures Weight(r[i]) >= Weight(r[j])
    {
      if i < k && j > k {
        assert r[i] == s[i] && r[j] == s[j - 1];
      } else if i == k && j > k {
        assert r[j] == s[j - 1] && Weight(s[j - 1]) <= Weight(s[k]);
      }
    }
  }

  /** The sort's result is non-increasing by weight. */
  lemma {:induction false} SortDescSorted(s: seq<Node>)
    ensures SortedDesc(SortDesc(s))
  {
    if s != [] {
      SortDescSorted(s[..|s| - 1]);
      InsertSorted(SortDesc(s[..|s| - 1]), s[|s| - 1]);
    }
  }

  /** The sort neither adds nor loses nodes, counting repeats. */
  lemma {:induction false} SortDescPermutes(s: seq<Node>)
    ensures multiset(SortDesc(s)) == multiset(s)
  {
    if s != [] {
      var init := s[..|s| - 1];
      SortDescPermutes(init);
      var t := SortDesc(init);
      InsertPermutes(t, s[|s| - 1]);
      assert s == init + [s[|s| - 1]];
    }
  }

  lemma InsertPermutes(s: seq<Node>, x: Node)
    ensures multiset(Insert(s, x)) == multiset(s) + multiset{x}
  {
    var k := Place(s, x);
    assert s == s[..k] + s[k..];
  }

  /** The nodes of weight `w`, in order: what stability is about. */
  function WithWeight(s: seq<Node>, w: real): seq<Node> {
    if s == [] then []
    else WithWeight(s[..|s| - 1], w) + (if Weight(s[|s| - 1]) == w then [s[|s| - 1]] else [])
  }

  lemma {:induction false} WithWeightAppend(a: seq<Node>, b: seq<Node>, w: real)
    ensures WithWeight(a + b, w) == WithWeight(a, w) + WithWeight(b, w)
    decreases |b|
  {
    if b != [] {
      assert (a + b)[..|a + b| - 1] == a + b[..|b| - 1];
      WithWeightAppend(a, b[..|b| - 1], w);
    } else {
      assert a + b == a;
    }
  }

  lemma {:induction false} WithWeightNone(s: seq<Node>, w: real)
    requires forall i :: 0 <= i < |s| ==> Weight(s[i]) != w
    ensures WithWeight(s, w) == []
  {
    if s != [] {
      WithWeightNone(s[..|s| - 1], w);
    }
  }

  lemma WithWeightSingle(x: Node, w: real)
    ensures WithWeight([x], w) == if Weight(x) == w then [x] else []
  {
    assert [x][..0] == [];
  }

  /** The nodes of weight `w` of an insertion, piece by piece. */
  lemma InsertPieces(s: seq<Node>, x: Node, w: real)
    ensures var k := Place(s, x);
      && WithWeight(s, w) == WithWeight(s[..k], w) + WithWeight(s[k..], w)
      && WithWeight(Insert(s, x), w) == WithWeight(s[..k], w) + WithWeight([x], w) + WithWeight(s[k..], w)
  {
    var k := Place(s, x);
    var p, r := s[..k], s[k..];
    assert s == p + r;
    WithWeightAppend(p, r, w);
    WithWeightAppend(p + [x], r, w);
    WithWeightAppend(p, [x], w);
  }

  /** In a sorted sequence, everything after the insertion point is lighter than `x`. */
  lemma LighterAfterPlace(s: seq<Node>, x: Node)
    requires SortedDesc(s)
    ensures forall i :: Place(s, x) <= i < |s| ==> Weight(s[i]) < Weight(x)
  {
    var k := Place(s, x);
    forall i | k <= i < |s|
      ensures Weight(s[i]) < Weight(x)
    {
      assert Weight(s[i]) <= Weight(s[k]);
    }
  }

  /** Inserting into a sorted sequence keeps the nodes of each weight in
      order and puts `x` after those of its own weight. */
  lemma InsertStable(s: seq<Node>, x: Node, w: real)
    requires SortedDesc(s)
    ensures WithWeight(Insert(s, x), w) == WithWeight(s, w) + (if Weight(x) == w then [x] else [])
  {
    var k := Place(s, x);
    InsertPieces(s, x, w);
    WithWeightSingle(x, w);
    if Weight(x) == w {
      LighterAfterPlace(s, x);
      WithWeightNone(s[k..], w);
    }
  }

  /** The sort is stable: the nodes of any one weight keep their order. */
  lemma {:induction false} SortDescStable(s: seq<Node>, w: real)
    ensures WithWeight(SortDesc(s), w) == WithWeight(s, w)
  {
    if s != [] {
      var init := s[..|s| - 1];
      SortDescStable(init, w);
      SortDescSorted(init);
      InsertStable(SortDesc(init), s[|s| - 1], w);
    }
  }

  /** Moves `a[i]` left past the lighter nodes of the sorted prefix `a[..i]`. */
  method InsertLast(a: array<Node>, i: nat)
    requires i < a.Length && SortedDesc(a[..i])
    modifies a
    ensures a[..i + 1] == Insert(old(a[..i]), old(a[i]))
    ensures a[i + 1..] == old(a[i + 1..])
  {
    var x := a[i];
    ghost var before := a[..];
    var j := ShiftLighter(a, i, x);
    a[j] := x;
    ShiftedArrayIsInsert(before, a[..], i, j);
  }

  /** The array as the shifting loop and the final write leave it holds
      the insertion in its first `i + 1` places and nothing else changed. */
  lemma ShiftedArrayIsInsert(before: seq<Node>, after: seq<Node>, i: nat, j: nat)
    requires i < |before| == |after| && j <= i && SortedDesc(before[..i]) && after[j] == before[i]
    requires forall k :: 0 <= k < j ==> after[k] == before[k]
    requires forall k :: j < k <= i ==> after[k] == before[k - 1]
    requires forall k :: j <= k < i ==> Weight(before[k]) < Weight(before[i])
    requires j == 0 || Weight(before[j - 1]) >= Weight(before[i])
    requires forall k :: i < k < |after| ==> after[k] == before[k]
    ensures after[..i + 1] == Insert(before[..i], before[i])
    ensures after[i + 1..] == before[i + 1..]
  {
    ShiftedIsInsert(after[..i + 1], before[..i], before[i], j);
  }

  /** The shifting loop: every node of `a[..i]` lighter than `x`, from the
      right, moves one place up, opening a gap at `j`. */
  method ShiftLighter(a: array<Node>, i: nat, x: Node) returns (j: nat)
    requires i < a.Length
    modifies a
    ensures j <= i
    ensures forall k :: 0 <= k < j ==> a[k] == old(a[k])
    ensures forall k :: j < k <= i ==> a[k] == old(a[k - 1])
    ensures forall k :: j <= k < i ==> Weight(old(a[k])) < Weight(x)
    ensures j == 0 || Weight(old(a[j - 1])) >= Weight(x)
    ensures forall k :: i < k < a.Length ==> a[k] == old(a[k])
  {
    j := i;
    while j > 0 && Weight(a[j - 1]) < Weight(x)
      invariant 0 <= j <= i
      invariant forall k :: 0 <= k < j ==> a[k] == old(a[k])
      invariant forall k :: j < k <= i ==> a[k] == old(a[k - 1])
      invariant forall k :: j <= k < i ==> Weight(old(a[k])) < Weight(x)
      invariant forall k :: i < k < a.Length ==> a[k] == old(a[k])
    {
      a[j] := a[j - 1];
      j := j - 1;
    }
  }

  /** The prefix as the shifting loop leaves it is the insertion. */
  lemma ShiftedIsInsert(b: seq<Node>, sorted: seq<Node>, x: Node, j: nat)
    requires |b| == |sorted| + 1 && j <= |sorted| && b[j] == x && SortedDesc(sorted)
    requires forall k :: 0 <= k < j ==> b[k] == sorted[k]
    requires forall k :: j < k < |b| ==> b[k] == sorted[k - 1]
    requires j == 0 || Weight(sorted[j - 1]) >= Weight(x)
    requires forall k :: j <= k < |sorted| ==> Weight(sorted[k]) < Weight(x)
    ensures b == Insert(sorted, x)
  {
    PlaceIsSplit(sorted, x, j);
    assert b == sorted[..j] + [x] + sorted[j..];
  }

  /** Insertion sort of the array in place. */
  method SortByWeight(a: array<Node>)
    modifies a
    ensures a[..] == SortDesc(old(a[..]))
  {
    ghost var s := a[..];
    var i := 0;
    while i < a.Length
      invariant 0 <= i <= a.Length
      invariant a[..i] == SortDesc(s[..i])
      invariant a[i..] == s[i..]
    {
      SortDescSorted(s[..i]);
      InsertLast(a, i);
      assert s[..i + 1][..i] == s[..i];
      i := i + 1;
    }
    assert s[..a.Length] == s;
  }
}
