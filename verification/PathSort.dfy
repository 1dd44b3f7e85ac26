/** The in-place insertion sort of `Digest` and the bytewise path order it uses (internal/catalog/catalog.go). */
module PathSort {
  import opened Base
  import opened Lists
  import opened Frames

  /** Go's `<` on strings: bytewise lexicographic. */
  predicate Less(a: bytes, b: bytes) {
    if b == [] then false
    else if a == [] then true
    else if a[0] != b[0] then a[0] < b[0]
    else Less(a[1..], b[1..])
  }

  lemma {:induction false} LessTotal(a: bytes, b: bytes)
    ensures Less(a, b) || Less(b, a) || a == b
    ensures !(Less(a, b) && Less(b, a)) && !Less(a, a)
  {
    if a != [] && b != [] {
      LessTotal(a[1..], b[1..]);
      LessTotal(a[1..], a[1..]);
      if a[0] == b[0] && a[1..] == b[1..] {
        assert a == [a[0]] + a[1..] && b == [b[0]] + b[1..];
      }
    } else if a != [] {
      LessTotal(a[1..], a[1..]);
    }
  }

  lemma {:induction false} LessTransitive(a: bytes, b: bytes, c: bytes)
    requires Less(a, b) && Less(b, c)
    ensures Less(a, c)
  {
    if a != [] && a[0] == b[0] == c[0] {
      LessTransitive(a[1..], b[1..], c[1..]);
    }
  }

  // ----- what the sort does to a list -----

  /** Moves `x` from the end of a list past every path that is greater. */
  function Insert(s: seq<FileEntry>, x: FileEntry): (r: seq<FileEntry>)
    ensures |r| == |s| + 1
  {
    var n := |s| - 1;
    if s == [] || !Less(x.path, s[n].path) then s + [x] else Insert(s[..n], x) + [s[n]]
  }

  function Sorted(s: seq<FileEntry>): (r: seq<FileEntry>)
    ensures |r| == |s|
  {
    if s == [] then [] else Insert(Sorted(s[..|s| - 1]), s[|s| - 1])
  }

  /** The list after entry `j` has moved to its place among the entries before it. */
  function Sifted(s: seq<FileEntry>, j: nat): (r: seq<FileEntry>)
    requires j < |s|
    ensures |r| == |s|
  {
    Insert(s[..j], s[j]) + s[j + 1..]
  }

  function SortedFrom(s: seq<FileEntry>, i: nat): seq<FileEntry>
    decreases |s| - i
  {
    if i >= |s| then s else SortedFrom(Sifted(s, i), i + 1)
  }

  /** The two nested loops over the array. */
  method SortByPath(entries: array<FileEntry>)
    modifies entries
    ensures entries[..] == Sorted(old(entries[..]))
  {
    var i := 1;
    while i < entries.Length
      invariant i >= 1 && SortedFrom(entries[..], i) == SortedFrom(old(entries[..]), 1)
    {
      ghost var sifted := Sifted(entries[..], i);
      var j := i;
      while j > 0 && Less(entries[j].path, entries[j - 1].path)
        invariant j <= i && Sifted(entries[..], j) == sifted
      {
        SiftStep(entries[..], j);
        ghost var before := entries[..];
        entries[j], entries[j - 1] := entries[j - 1], entries[j];
        assert entries[..] == before[j := before[j - 1]][j - 1 := before[j]];
        j := j - 1;
      }
      SiftDone(entries[..], j);
      i := i + 1;
    }
    SortedFromStart(old(entries[..]));
  }

  /** One swap brings the entry one place closer to where it belongs. */
  lemma SiftStep(s: seq<FileEntry>, j: nat)
    requires 0 < j < |s| && Less(s[j].path, s[j - 1].path)
    ensures Sifted(s[j := s[j - 1]][j - 1 := s[j]], j - 1) == Sifted(s, j)
  {
    var t := s[j := s[j - 1]][j - 1 := s[j]];
    assert s[..j][..j - 1] == s[..j - 1] == t[..j - 1];
    assert t[j..] == [s[j - 1]] + s[j + 1..];
  }

  lemma SiftDone(s: seq<FileEntry>, j: nat)
    requires j < |s| && (j == 0 || !Less(s[j].path, s[j - 1].path))
    ensures Sifted(s, j) == s
  {
    assert s[..j] + [s[j]] + s[j + 1..] == s;
  }

  lemma {:induction false} SortedFromStart(s: seq<FileEntry>)
    ensures SortedFrom(s, 1) == Sorted(s)
  {
    if s != [] {
      assert s[..1][..0] == [] && s[..1] == [s[0]];
      assert Sorted(s[..1]) == [s[0]];
      SortedFromPrefix(s, s, 1);
    }
  }

  /** With the first `i` entries in place, the remaining passes finish the sort. */
  lemma {:induction false} SortedFromPrefix(s: seq<FileEntry>, was: seq<FileEntry>, i: nat)
    requires i <= |s| == |was| && s == Sorted(was[..i]) + was[i..]
    ensures SortedFrom(s, i) == Sorted(was)
    decreases |s| - i
  {
    if i < |s| {
      assert s[..i] == Sorted(was[..i]) && s[i + 1..] == was[i + 1..] && s[i] == was[i];
      assert was[..i + 1][..i] == was[..i];
      SortedFromPrefix(Sifted(s, i), was, i + 1);
    } else {
      assert was[..i] == was;
    }
  }

  // ----- sorted, a permutation, and independent of the initial order -----

  ghost predicate Ordered(s: seq<FileEntry>) {
    forall i, j :: 0 <= i < j < |s| ==> !Less(s[j].path, s[i].path)
  }

  ghost predicate DistinctPaths(s: seq<FileEntry>) {
    forall i, j :: 0 <= i < j < |s| ==> s[i].path != s[j].path
  }

  lemma {:induction false} InsertPermutes(s: seq<FileEntry>, x: FileEntry)
    ensures multiset(Insert(s, x)) == multiset(s) + multiset{x}
  {
    var n := |s| - 1;
    if s != [] && Less(x.path, s[n].path) {
      InsertPermutes(s[..n], x);
      assert s == s[..n] + [s[n]];
    }
  }

  lemma {:induction false} InsertOrdered(s: seq<FileEntry>, x: FileEntry)
    requires Ordered(s)
    ensures Ordered(Insert(s, x))
  {
    var n := |s| - 1;
    var r := Insert(s, x);
    if s == [] {
    } else if Less(x.path, s[n].path) {
      InsertOrdered(s[..n], x);
      InsertPermutes(s[..n], x);
      var front := Insert(s[..n], x);
      forall i | 0 <= i < |front|
        ensures !Less(s[n].path, front[i].path)
      {
        assert front[i] in multiset(front);
        if front[i] == x {
          LessTotal(x.path, s[n].path);
        } else {
          assert front[i] in s[..n];
        }
      }
    } else {
      forall i | 0 <= i < |s|
        ensures !Less(x.path, s[i].path)
      {
        NotLessTransitive(x.path, s[n].path, s[i].path);
      }
    }
  }

  lemma NotLessTransitive(c: bytes, b: bytes, a: bytes)
    requires !Less(c, b) && (!Less(b, a) || a == b)
    ensures !Less(c, a)
  {
    LessTotal(c, b);
    LessTotal(a, b);
    if Less(c, a) && Less(a, b) {
      LessTransitive(c, a, b);
    }
  }

  /** The result is in bytewise path order and holds the same entries. */
  lemma {:induction false} SortedIsOrderedPermutation(s: seq<FileEntry>)
    ensures Ordered(Sorted(s)) && multiset(Sorted(s)) == multiset(s)
  {
    if s != [] {
      var n := |s| - 1;
      SortedIsOrderedPermutation(s[..n]);
      InsertOrdered(Sorted(s[..n]), s[n]);
      InsertPermutes(Sorted(s[..n]), s[n]);
      assert s == s[..n] + [s[n]];
    }
  }

  /** The first entry of an ordered list comes before every other entry of it. */
  lemma OrderedHeads(a: seq<FileEntry>, b: seq<FileEntry>)
    requires Ordered(a) && Ordered(b) && DistinctPaths(a)
    requires a != [] && b != [] && a[0] in b && b[0] in a
    ensures a[0] == b[0]
  {
    var i :| 0 <= i < |b| && b[i] == a[0];
    var j :| 0 <= j < |a| && a[j] == b[0];
    LessTotal(a[0].path, b[0].path);
    assert i == 0 || !Less(b[i].path, b[0].path);
  }

  lemma OrderedTail(s: seq<FileEntry>)
    requires s != []
    ensures Ordered(s) ==> Ordered(s[1..])
    ensures DistinctPaths(s) ==> DistinctPaths(s[1..])
  {
    hide Less;
  }

  lemma {:induction false} OrderedUnique(a: seq<FileEntry>, b: seq<FileEntry>)
    requires Ordered(a) && Ordered(b) && multiset(a) == multiset(b)
    requires DistinctPaths(a)
    ensures a == b
  {
    hide Less, Ordered, DistinctPaths;
    assert |a| == |multiset(a)| == |multiset(b)| == |b|;
    if a != [] {
      assert a[0] in multiset(b) && b[0] in multiset(a);
      OrderedHeads(a, b);
      HeadRemoved(a);
      HeadRemoved(b);
      OrderedTail(a);
      OrderedTail(b);
      OrderedUnique(a[1..], b[1..]);
      assert a == [a[0]] + a[1..] && b == [b[0]] + b[1..];
    }
  }

  /** With distinct paths the outcome does not depend on the order the walk produced. */
  lemma SortedCanonical(a: seq<FileEntry>, b: seq<FileEntry>)
    requires DistinctPaths(a)
    ensures Sorted(a) == Sorted(b) <==> multiset(a) == multiset(b)
  {
    SortedIsOrderedPermutation(a);
    SortedIsOrderedPermutation(b);
    if multiset(a) == multiset(b) {
      DistinctIsOfContents(a, Sorted(a));
      OrderedUnique(Sorted(a), Sorted(b));
    }
  }

  /** Distinctness of paths is a matter of the contents, not of their order. */
  lemma DistinctIsOfContents(a: seq<FileEntry>, b: seq<FileEntry>)
    requires DistinctPaths(a) && multiset(a) == multiset(b)
    ensures DistinctPaths(b)
  {
    assert NoDuplicates(a) by {
      assert forall i, j :: 0 <= i < j < |a| ==> a[i].path != a[j].path;
    }
    PermutationKeepsDistinct(b, a);
    forall i, j | 0 <= i < j < |b|
      ensures b[i].path != b[j].path
    {
      assert b[i] in multiset(a) && b[j] in multiset(a) && b[i] != b[j];
    }
  }

  // ----- the order, without recursion -----

  /** At the first place at which two paths differ, the smaller one ends or has the smaller byte. */
  ghost predicate FirstDifference(a: bytes, b: bytes, k: nat) {
    k <= |a| && k < |b| && a[..k] == b[..k] && (k == |a| || a[k] as int < b[k] as int)
  }

  lemma SameHead(a: bytes, b: bytes, k: nat)
    requires 0 < k <= |a| && k <= |b| && a[..k] == b[..k]
    ensures a[0] == b[0]
  {
    assert a[..k][0] == b[..k][0];
  }

  lemma {:induction false} LessIff(a: bytes, b: bytes)
    ensures Less(a, b) <==> exists k: nat :: FirstDifference(a, b, k)
  {
    if a != [] && b != [] && a[0] == b[0] {
      LessIff(a[1..], b[1..]);
      if k: nat :| FirstDifference(a[1..], b[1..], k) {
        assert a[..k + 1] == [a[0]] + a[1..][..k] && b[..k + 1] == [b[0]] + b[1..][..k];
        assert FirstDifference(a, b, k + 1);
      }
      if k: nat :| FirstDifference(a, b, k) {
        assert k > 0 && a[1..][..k - 1] == a[..k][1..] && b[1..][..k - 1] == b[..k][1..];
        assert FirstDifference(a[1..], b[1..], k - 1);
      }
    } else if Less(a, b) {
      assert FirstDifference(a, b, 0);
    } else if k: nat :| FirstDifference(a, b, k) && k > 0 {
      SameHead(a, b, k);
    }
  }
}
