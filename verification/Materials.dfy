/** The walk over a task directory and the digest of what it collects (internal/catalog/catalog.go, `Digest`). */
module Materials {
  import opened Base
  import opened Text
  import opened LineEndings
  import opened Frames
  import opened PathSort

  // ----- directory trees -----

  datatype Node =
    | File(data: bytes)
    | UnreadableFile
    | Symlink(resolves: bool)
    | Dir(children: seq<Entry>)  // in the order the walk lists them
    | UnreadableDir
    | Vanished  // listed, but gone when looked at

  datatype Entry = Entry(name: bytes, node: Node)

  datatype WalkFault = Unreadable(path: bytes) | SymlinkFound(path: bytes)

  const SLASH: byte := 0x2F
  const DOT: byte := 0x2E

  /** Directories the digest does not look into: generated caches and dot directories. */
  predicate Pruned(name: bytes) {
    name == Ascii("__pycache__") || (name != [] && name[0] == DOT)
  }

  // ----- the walk, file contents still as they are on disk -----

  function WalkNode(rel: bytes, name: bytes, node: Node): Result<seq<FileEntry>, WalkFault>
    decreases node
  {
    match node
    case File(data) => Ok([FileEntry(rel, data)])
    case UnreadableFile => Err(Unreadable(rel))
    case Symlink(_) => Err(SymlinkFound(rel))
    case Dir(children) => if Pruned(name) then Ok([]) else WalkChildren(rel + [SLASH], children)
    case UnreadableDir => Err(Unreadable(rel))
    case Vanished => Err(Unreadable(rel))
  }

  function WalkChildren(prefix: bytes, children: seq<Entry>): Result<seq<FileEntry>, WalkFault>
    decreases children
  {
    if children == [] then Ok([])
    else match WalkNode(prefix + children[0].name, children[0].name, children[0].node)
      case Err(fault) => Err(fault)
      case Ok(first) =>
        match WalkChildren(prefix, children[1..])
        case Err(fault) => Err(fault)
        case Ok(rest) => Ok(first + rest)
  }

  /** The task directory itself is exempt from the dot rule, not from the cache rule. */
  function WalkTask(taskID: string, root: Node): Result<seq<FileEntry>, WalkFault> {
    match root
    case Dir(children) => if taskID == "__pycache__" then Ok([]) else WalkChildren([], children)
    case _ => WalkNode([DOT], [DOT], root)
  }

  // ----- text materials -----

  function ExtensionFrom(path: bytes, i: nat): bytes
    requires i <= |path|
  {
    if i == 0 || path[i - 1] == SLASH then []
    else if path[i - 1] == DOT then path[i - 1..]
    else ExtensionFrom(path, i - 1)
  }

  function LowerByte(b: byte): byte { if 0x41 <= b <= 0x5A then b + 0x20 else b }

  function LowerBytes(s: bytes): bytes { seq(|s|, i requires 0 <= i < |s| => LowerByte(s[i])) }

  const TEXT_EXTENSIONS: seq<string> := [".md", ".py", ".yaml", ".yml", ".json", ".sh", ".txt"]

  predicate IsTextMaterial(path: bytes) {
    var extension := LowerBytes(ExtensionFrom(path, |path|));
    exists k :: 0 <= k < |TEXT_EXTENSIONS| && extension == Ascii(TEXT_EXTENSIONS[k])
  }

  function NormalizeEntry(e: FileEntry): FileEntry {
    if IsTextMaterial(e.path) then FileEntry(e.path, Normalize(e.data)) else e
  }

  function NormalizeAll(entries: seq<FileEntry>): (r: seq<FileEntry>)
    ensures |r| == |entries| && forall i :: 0 <= i < |r| ==> r[i] == NormalizeEntry(entries[i])
  {
    seq(|entries|, i requires 0 <= i < |entries| => NormalizeEntry(entries[i]))
  }

  // ----- the digest -----

  function StreamOf(entries: seq<FileEntry>): bytes { Stream(Sorted(NormalizeAll(entries))) }

  /** The bytes that are hashed for a task directory. */
  function DigestStream(taskID: string, root: Node): Result<bytes, WalkFault> {
    match WalkTask(taskID, root)
    case Err(fault) => Err(fault)
    case Ok(entries) => Ok(StreamOf(entries))
  }

  function DigestOf(taskID: string, root: Node, hash: Hash): Result<string, WalkFault> {
    match DigestStream(taskID, root)
    case Err(fault) => Err(fault)
    case Ok(stream) => Ok(HexEncode(hash(stream)))
  }

  ghost function Collected(entries: seq<FileEntry>, more: Result<seq<FileEntry>, WalkFault>)
    : Result<seq<FileEntry>, WalkFault>
  {
    match more
    case Err(fault) => Err(fault)
    case Ok(found) => Ok(entries + NormalizeAll(found))
  }

  /** The walk callback: it appends to the entries collected so far and stops at the first fault. */
  method Visit(rel: bytes, name: bytes, node: Node, soFar: seq<FileEntry>)
    returns (entries: seq<FileEntry>, fault: Option<WalkFault>)
    ensures match fault
      case None => Ok(entries) == Collected(soFar, WalkNode(rel, name, node))
      case Some(f) => WalkNode(rel, name, node) == Err(f)
    decreases node
  {
    entries, fault := soFar, None;
    match node
    case UnreadableFile => fault := Some(Unreadable(rel));
    case UnreadableDir => fault := Some(Unreadable(rel));
    case Vanished => fault := Some(Unreadable(rel));
    case Symlink(_) => fault := Some(SymlinkFound(rel));
    case File(data) =>
      entries := entries + [FileEntry(rel, if IsTextMaterial(rel) then Normalize(data) else data)];
      assert NormalizeAll([FileEntry(rel, data)]) == [NormalizeEntry(FileEntry(rel, data))];
    case Dir(children) =>
      if !Pruned(name) {
        entries, fault := VisitChildren(rel + [SLASH], children, entries);
      } else {
        assert entries + NormalizeAll([]) == entries;
      }
  }

  method VisitChildren(prefix: bytes, children: seq<Entry>, soFar: seq<FileEntry>)
    returns (entries: seq<FileEntry>, fault: Option<WalkFault>)
    ensures match fault
      case None => Ok(entries) == Collected(soFar, WalkChildren(prefix, children))
      case Some(f) => WalkChildren(prefix, children) == Err(f)
    decreases children
  {
    entries, fault := soFar, None;
    for k := 0 to |children|
      invariant fault == None
      invariant Collected(entries, WalkChildren(prefix, children[k..]))
             == Collected(soFar, WalkChildren(prefix, children))
    {
      ghost var was := entries;
      ghost var first := WalkNode(prefix + children[k].name, children[k].name, children[k].node);
      ghost var rest := WalkChildren(prefix, children[k + 1..]);
      assert children[k..][1..] == children[k + 1..];
      entries, fault := Visit(prefix + children[k].name, children[k].name, children[k].node, entries);
      if fault != None {
        return;
      }
      if rest.Ok? {
        NormalizeConcat(first.value, rest.value);
        assert was + NormalizeAll(first.value + rest.value) == entries + NormalizeAll(rest.value);
      }
    }
    assert entries + NormalizeAll([]) == entries;
  }

  lemma NormalizeConcat(a: seq<FileEntry>, b: seq<FileEntry>)
    ensures NormalizeAll(a + b) == NormalizeAll(a) + NormalizeAll(b)
  {
  }

  method VisitTask(taskID: string, root: Node) returns (entries: seq<FileEntry>, fault: Option<WalkFault>)
    ensures match fault
      case None => Ok(entries) == Collected([], WalkTask(taskID, root))
      case Some(f) => WalkTask(taskID, root) == Err(f)
  {
    if root.Dir? {
      if taskID == "__pycache__" {
        assert [] + NormalizeAll([]) == [];
        return [], None;
      }
      entries, fault := VisitChildren([], root.children, []);
    } else {
      entries, fault := Visit([DOT], [DOT], root, []);
    }
  }

  method WriteFrames(files: array<FileEntry>) returns (written: bytes)
    ensures written == Stream(files[..])
  {
    written := [];
    for k := 0 to files.Length
      invariant written == Stream(files[..k])
    {
      StreamAppend(files[..k], files[k]);
      assert files[..k + 1] == files[..k] + [files[k]];
      written := written + Frame(files[k]);
    }
    assert files[..files.Length] == files[..];
  }

  /** `Digest`: walk, sort in place, write the frames into the running hash. */
  method Digest(taskID: string, root: Node, hash: Hash) returns (r: Result<string, WalkFault>)
    ensures r == DigestOf(taskID, root, hash)
  {
    var entries, fault := VisitTask(taskID, root);
    if fault.Some? {
      return Err(fault.value);
    }
    var files := new FileEntry[|entries|](i requires 0 <= i < |entries| => entries[i]);
    assert files[..] == entries;
    SortByPath(files);
    var written := WriteFrames(files);
    assert [] + NormalizeAll(WalkTask(taskID, root).value) == NormalizeAll(WalkTask(taskID, root).value);
    return Ok(HexEncode(hash(written)));
  }
}
