/** What the digest of a task directory stands for: its visible files, whatever the order, the pruned directories and
    the line endings of the checkout. */
module MaterialFacts {
  import opened Base
  import opened Lists
  import opened Text
  import opened LineEndings
  import opened Frames
  import opened PathSort
  import opened Materials

  // ----- a reference: which node a sequence of names leads to -----

  /** `__pycache__` */
  const CACHE_NAME: bytes := [0x5F, 0x5F, 0x70, 0x79, 0x63, 0x61, 0x63, 0x68, 0x65, 0x5F, 0x5F]

  /** Names of directories whose contents do not count: generated caches, and what starts with a dot. */
  predicate SkippedName(name: bytes) { name == CACHE_NAME || (|name| > 0 && name[0] == 0x2E) }

  lemma PrunedIff(name: bytes)
    ensures Pruned(name) <==> SkippedName(name)
  {
    var cache := Ascii("__pycache__");
    assert |cache| == 11 && cache == CACHE_NAME;
  }

  /** `names` leads from a directory to `node` without passing through a skipped directory. */
  ghost predicate At(children: seq<Entry>, names: seq<bytes>, node: Node) {
    names != [] &&
    exists e :: e in children && e.name == names[0] &&
      if |names| == 1 then e.node == node
      else e.node.Dir? && !SkippedName(e.name) && At(e.node.children, names[1..], node)
  }

  function Join(names: seq<bytes>): bytes {
    if names == [] then [] else if |names| == 1 then names[0] else names[0] + [SLASH] + Join(names[1..])
  }

  /** What the operating system guarantees of names: neither empty nor with slash or NUL, distinct in a directory. */
  ghost predicate GoodName(name: bytes) { name != [] && SLASH !in name && NUL !in name }

  ghost predicate WellNamed(children: seq<Entry>) {
    (forall i :: 0 <= i < |children| ==> GoodName(children[i].name)) &&
    (forall i, j :: 0 <= i < j < |children| ==> children[i].name != children[j].name) &&
    (forall e :: e in children && e.node.Dir? ==> WellNamed(e.node.children))
  }

  ghost predicate GoodNames(names: seq<bytes>) { forall n :: n in names ==> GoodName(n) }

  lemma AtSuffix(children: seq<Entry>, names: seq<bytes>, node: Node)
    requires children != [] && At(children[1..], names, node)
    ensures At(children, names, node)
  {
  }

  /** The child the first name leads to. */
  lemma AtChild(children: seq<Entry>, names: seq<bytes>, node: Node) returns (i: nat)
    requires At(children, names, node)
    ensures names != [] && i < |children| && children[i].name == names[0] && children[i] in children
    ensures |names| == 1 ==> children[i].node == node
    ensures |names| > 1 ==>
      children[i].node.Dir? && !SkippedName(children[i].name) && At(children[i].node.children, names[1..], node)
  {
    var e :| e in children && e.name == names[0] &&
      if |names| == 1 then e.node == node
      else e.node.Dir? && !SkippedName(e.name) && At(e.node.children, names[1..], node);
    i :| 0 <= i < |children| && children[i] == e;
  }

  lemma {:induction false} AtNames(children: seq<Entry>, names: seq<bytes>, node: Node)
    requires WellNamed(children) && At(children, names, node)
    ensures GoodNames(names)
  {
    var i := AtChild(children, names, node);
    var e := children[i];
    assert GoodName(children[i].name);
    if |names| > 1 {
      AtNames(e.node.children, names[1..], node);
    }
    assert names == [names[0]] + names[1..];
  }

  // ----- the walk collects exactly the visible files -----

  lemma {:induction false} WalkChildrenSplit(prefix: bytes, children: seq<Entry>, i: nat)
    requires i < |children| && WalkChildren(prefix, children).Ok?
    ensures WalkNode(prefix + children[i].name, children[i].name, children[i].node).Ok?
    ensures forall e :: e in WalkNode(prefix + children[i].name, children[i].name, children[i].node).value
                    ==> e in WalkChildren(prefix, children).value
  {
    if i > 0 {
      WalkChildrenSplit(prefix, children[1..], i - 1);
    }
  }

  lemma {:induction false} WalkComplete(prefix: bytes, children: seq<Entry>, names: seq<bytes>, data: bytes)
    requires WalkChildren(prefix, children).Ok? && At(children, names, File(data))
    ensures FileEntry(prefix + Join(names), data) in WalkChildren(prefix, children).value
    decreases |names|
  {
    hide At, Pruned;
    var i := AtChild(children, names, File(data));
    var e := children[i];
    PrunedIff(e.name);
    WalkChildrenSplit(prefix, children, i);
    if |names| > 1 {
      WalkComplete(prefix + e.name + [SLASH], e.node.children, names[1..], data);
      assert prefix + e.name + [SLASH] + Join(names[1..]) == prefix + Join(names);
    }
  }

  lemma {:induction false} WalkSound(prefix: bytes, children: seq<Entry>, f: FileEntry) returns (names: seq<bytes>)
    requires WalkChildren(prefix, children).Ok? && f in WalkChildren(prefix, children).value
    ensures At(children, names, File(f.data)) && f.path == prefix + Join(names)
    decreases children
  {
    var e := children[0];
    assert e in children;
    var first := WalkNode(prefix + e.name, e.name, e.node).value;
    if f in first {
      if e.node.File? {
        names := [e.name];
      } else {
        PrunedIff(e.name);
        var deeper := WalkSound(prefix + e.name + [SLASH], e.node.children, f);
        names := [e.name] + deeper;
        assert names[1..] == deeper;
        assert prefix + e.name + [SLASH] + Join(deeper) == prefix + Join(names);
      }
    } else {
      names := WalkSound(prefix, children[1..], f);
      AtSuffix(children, names, File(f.data));
    }
  }

  /** The walk refuses exactly the trees in which a symlink or something unreadable lies outside pruned directories. */
  ghost predicate Refused(node: Node) {
    node.Symlink? || node.UnreadableFile? || node.UnreadableDir? || node.Vanished?
  }

  /** The fault of a refused node: a symlink is named as such, whatever it resolves to. */
  function FaultOf(path: bytes, node: Node): WalkFault { if node.Symlink? then SymlinkFound(path) else Unreadable(path) }

  lemma {:induction false} RefusalFound(prefix: bytes, children: seq<Entry>) returns (names: seq<bytes>, node: Node)
    requires WalkChildren(prefix, children).Err?
    ensures At(children, names, node) && Refused(node)
    ensures WalkChildren(prefix, children).error == FaultOf(prefix + Join(names), node)
    decreases children
  {
    var e := children[0];
    assert e in children;
    if WalkNode(prefix + e.name, e.name, e.node).Err? {
      if e.node.Dir? {
        PrunedIff(e.name);
        var deeper, n := RefusalFound(prefix + e.name + [SLASH], e.node.children);
        names, node := [e.name] + deeper, n;
        assert names[1..] == deeper;
        assert prefix + e.name + [SLASH] + Join(deeper) == prefix + Join(names);
      } else {
        names, node := [e.name], e.node;
      }
    } else {
      names, node := RefusalFound(prefix, children[1..]);
      AtSuffix(children, names, node);
    }
  }

  lemma {:induction false} RefusedStopsWalk(prefix: bytes, children: seq<Entry>, names: seq<bytes>, node: Node)
    requires At(children, names, node) && Refused(node)
    ensures WalkChildren(prefix, children).Err?
    decreases |names|
  {
    if WalkChildren(prefix, children).Ok? {
      var i := AtChild(children, names, node);
      var e := children[i];
      PrunedIff(e.name);
      WalkChildrenSplit(prefix, children, i);
      assert |names| > 1;
      RefusedStopsWalk(prefix + e.name + [SLASH], e.node.children, names[1..], node);
      assert false;
    }
  }

  lemma WalkRefusesIff(prefix: bytes, children: seq<Entry>)
    ensures WalkChildren(prefix, children).Err? <==> exists names, node :: Refused(node) && At(children, names, node)
    ensures WalkChildren(prefix, children).Err? ==>
      exists names, node :: Refused(node) && At(children, names, node) &&
        WalkChildren(prefix, children).error == FaultOf(prefix + Join(names), node)
  {
    if WalkChildren(prefix, children).Err? {
      var names, node := RefusalFound(prefix, children);
      assert Refused(node) && At(children, names, node);
    }
    forall names, node | At(children, names, node) && Refused(node)
      ensures WalkChildren(prefix, children).Err?
    {
      RefusedStopsWalk(prefix, children, names, node);
    }
  }

  // ----- paths are distinct and NUL-free -----

  lemma {:induction false} JoinInjective(a: seq<bytes>, b: seq<bytes>)
    requires GoodNames(a) && GoodNames(b) && a != [] && b != [] && Join(a) == Join(b)
    ensures a == b
  {
    FirstName(a);
    FirstName(b);
    assert a[0] == Join(a)[..|a[0]|] == Join(b)[..|b[0]|] == b[0];
    if |a| > 1 && |b| > 1 {
      assert Join(a)[|a[0]| + 1..] == Join(a[1..]) && Join(b)[|b[0]| + 1..] == Join(b[1..]);
      JoinInjective(a[1..], b[1..]);
    }
    assert a == [a[0]] + a[1..] && b == [b[0]] + b[1..];
  }

  /** The first name of a path ends at its first slash. */
  lemma FirstName(a: seq<bytes>)
    requires GoodNames(a) && a != []
    ensures a[0] <= Join(a) && FirstIndex(Join(a), SLASH) == |a[0]|
    ensures |a| == 1 <==> |a[0]| == |Join(a)|
  {
    assert a[0] in a;
    if |a| > 1 {
      FirstIndexAt(a[0], SLASH, Join(a[1..]));
    }
  }

  lemma {:induction false} JoinNulFree(names: seq<bytes>)
    requires GoodNames(names)
    ensures NUL !in Join(names)
  {
    if names != [] {
      assert names[0] in names;
      JoinNulFree(names[1..]);
    }
  }

  lemma WalkNulFree(children: seq<Entry>)
    requires WellNamed(children) && WalkChildren([], children).Ok?
    ensures NulFree(WalkChildren([], children).value)
  {
    forall f | f in WalkChildren([], children).value
      ensures NUL !in f.path
    {
      var names := WalkSound([], children, f);
      AtNames(children, names, File(f.data));
      JoinNulFree(names);
      assert [] + Join(names) == Join(names);
    }
  }

  lemma DistinctConcat(a: seq<FileEntry>, b: seq<FileEntry>)
    requires DistinctPaths(a) && DistinctPaths(b) && forall f, g :: f in a && g in b ==> f.path != g.path
    ensures DistinctPaths(a + b)
  {
  }

  lemma {:induction false} WalkDistinct(prefix: bytes, children: seq<Entry>)
    requires WellNamed(children) && WalkChildren(prefix, children).Ok?
    ensures DistinctPaths(WalkChildren(prefix, children).value)
    decreases children
  {
    hide DistinctPaths, GoodName, Pruned;
    if children == [] {
      NothingTwice();
    } else {
      var e := children[0];
      assert e in children;
      var first := WalkNode(prefix + e.name, e.name, e.node).value;
      var rest := WalkChildren(prefix, children[1..]).value;
      NothingTwice();
      if e.node.Dir? && !Pruned(e.name) {
        WalkDistinct(prefix + e.name + [SLASH], e.node.children);
      } else if e.node.File? {
        OnlyOnce(FileEntry(prefix + e.name, e.node.data));
      }
      WalkDistinct(prefix, children[1..]);
      forall f, g | f in first && g in rest
        ensures f.path != g.path
      {
        SiblingsApart(prefix, children, f, g);
      }
      DistinctConcat(first, rest);
    }
  }

  lemma NothingTwice()
    ensures DistinctPaths([])
  {
  }

  lemma OnlyOnce(e: FileEntry)
    ensures DistinctPaths([e])
  {
  }

  lemma WellNamedParts(children: seq<Entry>)
    requires WellNamed(children) && children != []
    ensures WellNamed([children[0]]) && WellNamed(children[1..])
    ensures forall e :: e in children[1..] ==> e.name != children[0].name
  {
    hide GoodName;
  }

  lemma SiblingsApart(prefix: bytes, children: seq<Entry>, f: FileEntry, g: FileEntry)
    requires WellNamed(children) && children != []
    requires WalkChildren(prefix, children).Ok?
    requires f in WalkNode(prefix + children[0].name, children[0].name, children[0].node).value
    requires g in WalkChildren(prefix, children[1..]).value
    ensures f.path != g.path
  {
    WellNamedParts(children);
    hide Join, GoodName, Pruned, At, WellNamed;
    var here := [children[0]];
    assert here[1..] == [] && WalkChildren(prefix, here[1..]) == Ok([]);
    assert f in WalkChildren(prefix, here).value;
    var fNames := WalkSound(prefix, here, f);
    var gNames := WalkSound(prefix, children[1..], g);
    AtNames(here, fNames, File(f.data));
    AtNames(children[1..], gNames, File(g.data));
    var _ := AtChild(here, fNames, File(f.data));
    var _ := AtChild(children[1..], gNames, File(g.data));
    assert fNames[0] != gNames[0];
    if f.path == g.path {
      assert f.path[|prefix|..] == Join(fNames) && g.path[|prefix|..] == Join(gNames);
      JoinInjective(fNames, gNames);
    }
  }

  // ----- the stream is a canonical form of the visible, normalised files -----

  /** A task directory holds, as far as the digest is concerned, `data` at `path`. */
  ghost predicate Holds(children: seq<Entry>, path: bytes, data: bytes) {
    exists names, raw :: At(children, names, File(raw)) && HeldAs(names, raw, path, data)
  }

  ghost predicate HeldAs(names: seq<bytes>, raw: bytes, path: bytes, data: bytes) {
    path == Join(names) && data == if IsTextMaterial(path) then Normalize(raw) else raw
  }

  lemma HeldIsCollected(children: seq<Entry>, path: bytes, data: bytes)
    requires WalkChildren([], children).Ok? && Holds(children, path, data)
    ensures FileEntry(path, data) in NormalizeAll(WalkChildren([], children).value)
  {
    var found := WalkChildren([], children).value;
    var names, raw :| At(children, names, File(raw)) && HeldAs(names, raw, path, data);
    WalkComplete([], children, names, raw);
    assert [] + Join(names) == path;
    var i :| 0 <= i < |found| && found[i] == FileEntry(path, raw);
    assert NormalizeAll(found)[i] == FileEntry(path, data);
  }

  lemma CollectedIsHeld(children: seq<Entry>, path: bytes, data: bytes)
    requires WalkChildren([], children).Ok?
    requires FileEntry(path, data) in NormalizeAll(WalkChildren([], children).value)
    ensures Holds(children, path, data)
  {
    var found := WalkChildren([], children).value;
    var i :| 0 <= i < |found| && NormalizeAll(found)[i] == FileEntry(path, data);
    var names := WalkSound([], children, found[i]);
    assert [] + Join(names) == Join(names);
    assert HeldAs(names, found[i].data, path, data);
  }

  /** The walk collects exactly the visible files, text normalised. */
  lemma HoldsIff(children: seq<Entry>, path: bytes, data: bytes)
    requires WalkChildren([], children).Ok?
    ensures Holds(children, path, data)
       <==> FileEntry(path, data) in NormalizeAll(WalkChildren([], children).value)
  {
    if Holds(children, path, data) {
      HeldIsCollected(children, path, data);
    } else if FileEntry(path, data) in NormalizeAll(WalkChildren([], children).value) {
      CollectedIsHeld(children, path, data);
    }
  }

  lemma NormalizeAllKeepsPaths(s: seq<FileEntry>)
    ensures DistinctPaths(s) ==> DistinctPaths(NormalizeAll(s))
    ensures NulFree(s) ==> NulFree(NormalizeAll(s))
  {
  }

  /** Distinct lists are permutations of each other exactly when they have the same members. */
  lemma SameMembersIff(a: seq<FileEntry>, b: seq<FileEntry>)
    requires DistinctPaths(a) && DistinctPaths(b)
    ensures multiset(a) == multiset(b) <==> forall e :: e in a <==> e in b
  {
    if forall e :: e in a <==> e in b {
      forall e
        ensures multiset(a)[e] == multiset(b)[e]
      {
        OnceEach(a, e);
        OnceEach(b, e);
        assert e in a <==> e in b;
      }
    }
    if multiset(a) == multiset(b) {
      forall e
        ensures e in a <==> e in b
      {
        assert e in a <==> e in multiset(a);
      }
    }
  }

  /** Sorting and framing lose nothing but the order. */
  lemma StreamsEqualIff(a: seq<FileEntry>, b: seq<FileEntry>)
    requires DistinctPaths(a) && DistinctPaths(b) && NulFree(a) && NulFree(b)
    ensures Stream(Sorted(a)) == Stream(Sorted(b)) <==> forall e :: e in a <==> e in b
  {
    SortedIsOrderedPermutation(a);
    SortedIsOrderedPermutation(b);
    forall e | e in Sorted(a)
      ensures e in a
    {
      assert e in multiset(Sorted(a));
    }
    forall e | e in Sorted(b)
      ensures e in b
    {
      assert e in multiset(Sorted(b));
    }
    SortedCanonical(a, b);
    SameMembersIff(a, b);
    if Stream(Sorted(a)) == Stream(Sorted(b)) {
      StreamInjective(Sorted(a), Sorted(b));
    }
  }

  /** The hashed stream is a canonical form: two task directories give one stream exactly when they hold the same
      normalised contents at the same paths, in whatever order their walks list them. */
  lemma StreamIsCanonical(s: string, t: string, a: seq<Entry>, b: seq<Entry>)
    requires s != "__pycache__" && t != "__pycache__"
    requires WellNamed(a) && WellNamed(b) && WalkChildren([], a).Ok? && WalkChildren([], b).Ok?
    ensures DigestStream(s, Dir(a)) == DigestStream(t, Dir(b))
       <==> forall path, data :: Holds(a, path, data) <==> Holds(b, path, data)
  {
    var x, y := WalkChildren([], a).value, WalkChildren([], b).value;
    WalkDistinct([], a);
    WalkDistinct([], b);
    WalkNulFree(a);
    WalkNulFree(b);
    NormalizeAllKeepsPaths(x);
    NormalizeAllKeepsPaths(y);
    StreamsEqualIff(NormalizeAll(x), NormalizeAll(y));
    forall path, data
      ensures Holds(a, path, data) <==> FileEntry(path, data) in NormalizeAll(x)
      ensures Holds(b, path, data) <==> FileEntry(path, data) in NormalizeAll(y)
    {
      HoldsIff(a, path, data);
      HoldsIff(b, path, data);
    }
    if forall path, data :: Holds(a, path, data) <==> Holds(b, path, data) {
      forall e: FileEntry
        ensures e in NormalizeAll(x) <==> e in NormalizeAll(y)
      {
        assert e == FileEntry(e.path, e.data);
        assert Holds(a, e.path, e.data) <==> Holds(b, e.path, e.data);
      }
    }
  }

  /** And from the stream alone the files can be read back, in bytewise path order. */
  lemma StreamDecodes(taskID: string, children: seq<Entry>)
    requires taskID != "__pycache__" && WellNamed(children) && WalkChildren([], children).Ok?
    ensures Decode(DigestStream(taskID, Dir(children)).value)
         == Some(Sorted(NormalizeAll(WalkChildren([], children).value)))
  {
    var entries := NormalizeAll(WalkChildren([], children).value);
    WalkNulFree(children);
    NormalizeAllKeepsPaths(WalkChildren([], children).value);
    SortedIsOrderedPermutation(entries);
    forall e | e in Sorted(entries)
      ensures NUL !in e.path
    {
      assert e in multiset(entries);
    }
    DecodeStream(Sorted(entries));
  }

  // ----- pruned directories do not matter -----

  /** The tree without its pruned directories, at any depth. */
  function Visible(children: seq<Entry>): seq<Entry>
    decreases children
  {
    if children == [] then []
    else
      (if children[0].node.Dir? && SkippedName(children[0].name) then []
       else [Entry(children[0].name, VisibleNode(children[0].node))])
      + Visible(children[1..])
  }

  function VisibleNode(node: Node): Node
    decreases node
  {
    match node
    case Dir(children) => Dir(Visible(children))
    case _ => node
  }

  lemma {:induction false} WalkOfVisible(prefix: bytes, children: seq<Entry>)
    ensures WalkChildren(prefix, Visible(children)) == WalkChildren(prefix, children)
    decreases children
  {
    if children != [] {
      var e := children[0];
      assert e in children;
      WalkOfVisible(prefix, children[1..]);
      PrunedIff(e.name);
      if e.node.Dir? && SkippedName(e.name) {
        assert Visible(children) == Visible(children[1..]);
        var rest := WalkChildren(prefix, children[1..]);
        assert rest.Ok? ==> [] + rest.value == rest.value;
      } else {
        if e.node.Dir? {
          WalkOfVisible(prefix + e.name + [SLASH], e.node.children);
        }
        assert Visible(children)[1..] == Visible(children[1..]);
      }
    }
  }

  /** Whichever pruned directories appear, vanish or change, at any depth, the outcome is the same, faults included. */
  lemma PrunedDirectoriesDoNotMatter(taskID: string, a: seq<Entry>, b: seq<Entry>, hash: Hash)
    requires Visible(a) == Visible(b)
    ensures DigestOf(taskID, Dir(a), hash) == DigestOf(taskID, Dir(b), hash)
  {
    hide StreamOf, HexEncode, WalkChildren, Visible;
    WalkOfVisible([], a);
    WalkOfVisible([], b);
  }

  /** The tree with one more entry at the end of the directory that `names` lead to, if they lead to one. */
  function Grafted(children: seq<Entry>, names: seq<bytes>, extra: Entry): seq<Entry>
    decreases |names|, children
  {
    if names == [] then children + [extra] else GraftedBelow(children, names, extra)
  }

  function GraftedBelow(children: seq<Entry>, names: seq<bytes>, extra: Entry): seq<Entry>
    requires names != []
    decreases |names|, children, 0
  {
    if children == [] then []
    else
      var e := children[0];
      (if e.node.Dir? && e.name == names[0] then [Entry(e.name, Dir(Grafted(e.node.children, names[1..], extra)))]
       else [e])
      + GraftedBelow(children[1..], names, extra)
  }

  function VisibleEntry(e: Entry): seq<Entry> {
    if e.node.Dir? && SkippedName(e.name) then [] else [Entry(e.name, VisibleNode(e.node))]
  }

  lemma VisibleStep(children: seq<Entry>)
    requires children != []
    ensures Visible(children) == VisibleEntry(children[0]) + Visible(children[1..])
  {
    hide SkippedName, VisibleNode;
  }

  lemma {:induction false} VisibleConcat(a: seq<Entry>, b: seq<Entry>)
    ensures Visible(a + b) == Visible(a) + Visible(b)
  {
    if a == [] {
      assert a + b == b && Visible([]) == [];
    } else {
      VisibleStep(a);
      VisibleStep(a + b);
      hide Visible, VisibleEntry;
      assert (a + b)[0] == a[0] && (a + b)[1..] == a[1..] + b;
      VisibleConcat(a[1..], b);
      Associative(VisibleEntry(a[0]), Visible(a[1..]), Visible(b));
    }
  }

  lemma {:induction false} GraftInvisible(children: seq<Entry>, names: seq<bytes>, extra: Entry)
    requires extra.node.Dir? && SkippedName(extra.name)
    ensures Visible(Grafted(children, names, extra)) == Visible(children)
    decreases |names|, |children|
  {
    hide SkippedName;
    if names == [] {
      VisibleConcat(children, [extra]);
      assert [extra][1..] == [] && Visible([extra]) == [];
    } else if children != [] {
      var e, rest := children[0], GraftedBelow(children[1..], names, extra);
      GraftInvisible(children[1..], names, extra);
      var first := if e.node.Dir? && e.name == names[0]
        then [Entry(e.name, Dir(Grafted(e.node.children, names[1..], extra)))] else [e];
      if e.node.Dir? && e.name == names[0] {
        GraftInvisible(e.node.children, names[1..], extra);
      }
      assert (first + rest)[1..] == rest;
    }
  }

  /** Adding a directory named `__pycache__`, or with a name that starts with a dot, to any directory of the tree leaves
      digest and fault as they were, whatever it holds. */
  lemma CachesDoNotMatter(taskID: string, children: seq<Entry>, names: seq<bytes>, name: bytes, held: seq<Entry>, hash: Hash)
    requires name == [0x5F, 0x5F, 0x70, 0x79, 0x63, 0x61, 0x63, 0x68, 0x65, 0x5F, 0x5F] || (name != [] && name[0] == 0x2E)
    ensures DigestOf(taskID, Dir(Grafted(children, names, Entry(name, Dir(held)))), hash)
         == DigestOf(taskID, Dir(children), hash)
  {
    hide DigestOf;
    var extra := Entry(name, Dir(held));
    GraftInvisible(children, names, extra);
    PrunedDirectoriesDoNotMatter(taskID, Grafted(children, names, extra), children, hash);
  }

  /** A task that were itself named like a cache would have nothing to hash. */
  lemma NothingInCacheTask(children: seq<Entry>)
    ensures DigestStream("__pycache__", Dir(children)) == Ok([])
  {
  }

  // ----- which files are text -----

  /** A byte of a path is a character of an extension, as a lower-case or an upper-case letter. */
  predicate SameLetter(b: byte, c: char) {
    b as int == c as int || ('a' <= c <= 'z' && b as int == c as int - 32)
  }

  ghost predicate EndsInText(path: bytes, extension: string) {
    |extension| <= |path| &&
    forall i :: 0 <= i < |extension| ==> SameLetter(path[|path| - |extension| + i], extension[i])
  }

  lemma LowerByteIff(b: byte, c: char)
    requires c == '.' || 'a' <= c <= 'z'
    ensures LowerByte(b) == ByteOf(c) <==> SameLetter(b, c)
  {
  }

  lemma EndsInTextIff(path: bytes, x: string)
    requires forall i :: 0 <= i < |x| ==> x[i] == '.' || 'a' <= x[i] <= 'z'
    ensures EndsInText(path, x) <==> |x| <= |path| && LowerBytes(path[|path| - |x|..]) == Ascii(x)
  {
    if |x| <= |path| {
      var tail := path[|path| - |x|..];
      forall i | 0 <= i < |x|
        ensures LowerBytes(tail)[i] == Ascii(x)[i] <==> SameLetter(path[|path| - |x| + i], x[i])
      {
        LowerByteIff(tail[i], x[i]);
      }
      if LowerBytes(tail) == Ascii(x) {
        assert forall i :: 0 <= i < |x| ==> LowerBytes(tail)[i] == Ascii(x)[i];
      }
    }
  }

  /** A dot, and behind it neither a dot nor a slash. */
  ghost predicate IsExtension(s: bytes) {
    s != [] && s[0] == DOT && forall i :: 0 < i < |s| ==> s[i] != DOT && s[i] != SLASH
  }

  lemma {:induction false} ExtensionFromIs(path: bytes, i: nat, j: nat)
    requires i <= |path| && j < i && path[j] == DOT
    requires forall k :: j < k < i ==> path[k] != DOT && path[k] != SLASH
    ensures ExtensionFrom(path, i) == path[j..]
  {
    if j < i - 1 {
      ExtensionFromIs(path, i - 1, j);
    }
  }

  lemma {:induction false} ExtensionFromSound(path: bytes, i: nat)
    requires i <= |path|
    ensures |ExtensionFrom(path, i)| <= |path| && ExtensionFrom(path, i) == path[|path| - |ExtensionFrom(path, i)|..]
  {
    if i > 0 && path[i - 1] != SLASH && path[i - 1] != DOT {
      ExtensionFromSound(path, i - 1);
    }
  }

  lemma LoweredExtension(s: bytes, extension: string)
    requires LowerBytes(s) == Ascii(extension) && extension != "" && extension[0] == '.'
    requires forall i :: 0 < i < |extension| ==> IsLower(extension[i])
    ensures IsExtension(s)
  {
    forall i | 0 <= i < |s|
      ensures i == 0 ==> s[i] == DOT
      ensures i > 0 ==> s[i] != DOT && s[i] != SLASH
    {
      assert LowerBytes(s)[i] == LowerByte(s[i]) && Ascii(extension)[i] == ByteOf(extension[i]);
    }
  }

  lemma TextExtensionsPlain(k: nat)
    requires k < |TEXT_EXTENSIONS|
    ensures var x := TEXT_EXTENSIONS[k]; x != "" && x[0] == '.' && forall i :: 0 < i < |x| ==> IsLower(x[i])
  {
  }

  lemma SevenExtensions(path: bytes)
    ensures (exists x :: x in [".md", ".py", ".yaml", ".yml", ".json", ".sh", ".txt"] && EndsInText(path, x))
       <==> exists k :: 0 <= k < |TEXT_EXTENSIONS| && EndsInText(path, TEXT_EXTENSIONS[k])
  {
    hide EndsInText;
    assert TEXT_EXTENSIONS == [".md", ".py", ".yaml", ".yml", ".json", ".sh", ".txt"];
  }

  /** Text materials are the paths that end in one of the seven extensions, in any case. */
  lemma TextMaterialIff(path: bytes)
    ensures IsTextMaterial(path)
       <==> exists x :: x in [".md", ".py", ".yaml", ".yml", ".json", ".sh", ".txt"] && EndsInText(path, x)
  {
    hide Ascii, EndsInText;
    forall k | 0 <= k < |TEXT_EXTENSIONS|
      ensures EndsInText(path, TEXT_EXTENSIONS[k]) <==>
        |TEXT_EXTENSIONS[k]| <= |path| &&
        LowerBytes(path[|path| - |TEXT_EXTENSIONS[k]|..]) == Ascii(TEXT_EXTENSIONS[k])
    {
      TextExtensionsPlain(k);
      EndsInTextIff(path, TEXT_EXTENSIONS[k]);
    }
    SevenExtensions(path);
    var extension := ExtensionFrom(path, |path|);
    ExtensionFromSound(path, |path|);
    if k :| 0 <= k < |TEXT_EXTENSIONS| && LowerBytes(extension) == Ascii(TEXT_EXTENSIONS[k]) {
      assert |Ascii(TEXT_EXTENSIONS[k])| == |extension|;
      assert EndsInText(path, TEXT_EXTENSIONS[k]);
    }
    if k :| 0 <= k < |TEXT_EXTENSIONS| && EndsInText(path, TEXT_EXTENSIONS[k]) {
      var j := |path| - |TEXT_EXTENSIONS[k]|;
      TextExtensionsPlain(k);
      LoweredExtension(path[j..], TEXT_EXTENSIONS[k]);
      assert forall m :: j <= m < |path| ==> path[m] == path[j..][m - j];
      ExtensionFromIs(path, |path|, j);
    }
  }

  // ----- line endings do not matter -----

  function CrlfEntry(e: FileEntry): FileEntry {
    if IsTextMaterial(e.path) then FileEntry(e.path, ToCRLF(e.data)) else e
  }

  function CrlfAll(entries: seq<FileEntry>): (r: seq<FileEntry>)
    ensures |r| == |entries| && forall i :: 0 <= i < |r| ==> r[i] == CrlfEntry(entries[i])
  {
    seq(|entries|, i requires 0 <= i < |entries| => CrlfEntry(entries[i]))
  }

  /** The tree as a checkout that converts every text file to Windows line endings. */
  function CrlfChildren(prefix: bytes, children: seq<Entry>): seq<Entry>
    decreases children
  {
    if children == [] then []
    else
      [Entry(children[0].name, CrlfNode(prefix + children[0].name, children[0].node))]
      + CrlfChildren(prefix, children[1..])
  }

  function CrlfNode(rel: bytes, node: Node): Node
    decreases node
  {
    match node
    case File(data) => File(if IsTextMaterial(rel) then ToCRLF(data) else data)
    case Dir(children) => Dir(CrlfChildren(rel + [SLASH], children))
    case _ => node
  }

  ghost function CrlfResult(r: Result<seq<FileEntry>, WalkFault>): Result<seq<FileEntry>, WalkFault> {
    match r
    case Err(_) => r
    case Ok(entries) => Ok(CrlfAll(entries))
  }

  /** The walk of a list of children is determined by the walk of the first and of the others. */
  lemma CrlfJoins(prefix: bytes, children: seq<Entry>, first: Result<seq<FileEntry>, WalkFault>,
                  rest: Result<seq<FileEntry>, WalkFault>)
    requires children != [] && rest == WalkChildren(prefix, children[1..])
    requires first == WalkNode(prefix + children[0].name, children[0].name, children[0].node)
    ensures first.Ok? && rest.Ok? ==>
      CrlfResult(WalkChildren(prefix, children)) == Ok(CrlfAll(first.value) + CrlfAll(rest.value))
    ensures first.Err? ==> CrlfResult(WalkChildren(prefix, children)) == first
    ensures first.Ok? && rest.Err? ==> CrlfResult(WalkChildren(prefix, children)) == rest
  {
    if first.Ok? && rest.Ok? {
      assert CrlfAll(first.value + rest.value) == CrlfAll(first.value) + CrlfAll(rest.value);
    }
  }

  lemma {:induction false} WalkOfCrlf(prefix: bytes, children: seq<Entry>)
    ensures WalkChildren(prefix, CrlfChildren(prefix, children)) == CrlfResult(WalkChildren(prefix, children))
    decreases children
  {
    if children == [] {
      assert CrlfAll([]) == [];
    } else {
      var e := children[0];
      assert e in children;
      WalkOfCrlfNode(prefix + e.name, e.name, e.node);
      WalkOfCrlf(prefix, children[1..]);
      assert CrlfChildren(prefix, children)[1..] == CrlfChildren(prefix, children[1..]);
      CrlfJoins(prefix, children, WalkNode(prefix + e.name, e.name, e.node), WalkChildren(prefix, children[1..]));
    }
  }

  lemma {:induction false} WalkOfCrlfNode(rel: bytes, name: bytes, node: Node)
    ensures WalkNode(rel, name, CrlfNode(rel, node)) == CrlfResult(WalkNode(rel, name, node))
    decreases node
  {
    match node
    case Dir(children) =>
      if Pruned(name) {
        assert CrlfAll([]) == [];
      } else {
        WalkOfCrlf(rel + [SLASH], children);
      }
    case File(data) => assert CrlfAll([FileEntry(rel, data)]) == [CrlfEntry(FileEntry(rel, data))];
    case _ =>
  }

  ghost predicate LfOnly(entries: seq<FileEntry>) {
    forall e :: e in entries && IsTextMaterial(e.path) ==> !Contains(e.data, CRLF)
  }

  /** Converting all text files of a task directory to Windows line endings leaves the hashed stream as it was exactly
      when no visible text file had a CR LF pair to begin with. */
  lemma LineEndingsDoNotMatterIff(taskID: string, children: seq<Entry>)
    requires taskID != "__pycache__" && WellNamed(children) && WalkChildren([], children).Ok?
    ensures DigestStream(taskID, Dir(CrlfChildren([], children))) == DigestStream(taskID, Dir(children))
       <==> LfOnly(WalkChildren([], children).value)
  {
    var found := WalkChildren([], children).value;
    WalkOfCrlf([], children);
    forall i | 0 <= i < |found|
      ensures NormalizeEntry(CrlfEntry(found[i])) == found[i]
    {
      NormalizeUndoesToCRLF(found[i].data);
    }
    assert NormalizeAll(CrlfAll(found)) == found;
    WalkDistinct([], children);
    WalkNulFree(children);
    NormalizeAllKeepsPaths(found);
    StreamsEqualIff(found, NormalizeAll(found));
    NormalizeAllSameIff(found);
  }

  lemma NormalizeAllSameIff(found: seq<FileEntry>)
    requires DistinctPaths(found)
    ensures (forall e :: e in found <==> e in NormalizeAll(found)) <==> LfOnly(found)
  {
    var normalized := NormalizeAll(found);
    if LfOnly(found) {
      forall i | 0 <= i < |found|
        ensures normalized[i] == found[i]
      {
        assert found[i] in found;
        NormalizeUnchangedIff(found[i].data);
      }
      assert normalized == found;
    } else {
      var e :| e in found && IsTextMaterial(e.path) && Contains(e.data, CRLF);
      NormalizeUnchangedIff(e.data);
      forall j | 0 <= j < |found|
        ensures normalized[j] != e
      {
        var i :| 0 <= i < |found| && found[i] == e;
        assert i != j ==> found[i].path != found[j].path;
      }
      assert e !in normalized;
    }
  }
}
