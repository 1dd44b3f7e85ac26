/** One task directory, byte for byte: what the digest hashes for it (internal/catalog/catalog.go, `Digest`). */
module DigestExample {
  import opened Base
  import opened Text
  import opened LineEndings
  import opened Frames
  import opened PathSort
  import opened Materials
  import opened MaterialFacts

  /** `b.md` with `x`, CR, LF; `__pycache__/r.pyc`; an empty `a/c`; in the order in which they are listed. */
  const NOTE := Entry([0x62, 0x2E, 0x6D, 0x64], File([0x78, 0x0D, 0x0A]))
  const CACHE := Entry([0x5F, 0x5F, 0x70, 0x79, 0x63, 0x61, 0x63, 0x68, 0x65, 0x5F, 0x5F],
                       Dir([Entry([0x72, 0x2E, 0x70, 0x79, 0x63], File([0x01]))]))
  const FOLDER := Entry([0x61], Dir([Entry([0x63], File([]))]))

  const NOTE_PATH: bytes := [0x62, 0x2E, 0x6D, 0x64]
  const EMPTY_PATH: bytes := [0x61, 0x2F, 0x63]

  lemma WalkCons(prefix: bytes, e: Entry, rest: seq<Entry>)
    requires WalkNode(prefix + e.name, e.name, e.node).Ok? && WalkChildren(prefix, rest).Ok?
    ensures WalkChildren(prefix, [e] + rest)
         == Ok(WalkNode(prefix + e.name, e.name, e.node).value + WalkChildren(prefix, rest).value)
  {
    assert ([e] + rest)[0] == e && ([e] + rest)[1..] == rest;
  }

  lemma FolderFinds()
    ensures WalkNode([] + FOLDER.name, FOLDER.name, FOLDER.node) == Ok([FileEntry(EMPTY_PATH, [])])
  {
    PrunedIff(FOLDER.name);
    var e := FOLDER.node.children[0];
    var prefix := [] + FOLDER.name + [SLASH];
    assert prefix + e.name == EMPTY_PATH;
    WalkCons(prefix, e, []);
    assert FOLDER.node.children == [e] + [];
    assert [FileEntry(EMPTY_PATH, [])] + [] == [FileEntry(EMPTY_PATH, [])];
  }

  lemma WalkFinds()
    ensures WalkChildren([], [NOTE, CACHE, FOLDER])
         == Ok([FileEntry(NOTE_PATH, [0x78, 0x0D, 0x0A]), FileEntry(EMPTY_PATH, [])])
  {
    PrunedIff(CACHE.name);
    FolderFinds();
    hide WalkChildren, Pruned;
    var note, empty := FileEntry(NOTE_PATH, [0x78, 0x0D, 0x0A]), FileEntry(EMPTY_PATH, []);
    NothingFound();
    WalkCons([], FOLDER, []);
    assert [FOLDER] + [] == [FOLDER] && [empty] + [] == [empty];
    WalkCons([], CACHE, [FOLDER]);
    assert [CACHE] + [FOLDER] == [CACHE, FOLDER] && [] + [empty] == [empty];
    assert [] + NOTE.name == NOTE_PATH;
    WalkCons([], NOTE, [CACHE, FOLDER]);
    assert [NOTE] + [CACHE, FOLDER] == [NOTE, CACHE, FOLDER] && [note] + [empty] == [note, empty];
  }

  lemma NothingFound()
    ensures WalkChildren([], []) == Ok([])
  {
  }

  lemma NoteIsText()
    ensures IsTextMaterial(NOTE_PATH) && !IsTextMaterial(EMPTY_PATH)
  {
    TextMaterialIff(NOTE_PATH);
    assert EndsInText(NOTE_PATH, ".md");
    TextMaterialIff(EMPTY_PATH);
    forall x | x in [".md", ".py", ".yaml", ".yml", ".json", ".sh", ".txt"]
      ensures !EndsInText(EMPTY_PATH, x)
    {
      if |x| == 3 {
        assert x[0] == '.' && !SameLetter(EMPTY_PATH[0], x[0]);
      }
    }
  }

  lemma NoteNormalized()
    ensures Normalize([0x78, 0x0D, 0x0A]) == [0x78, 0x0A]
  {
    var data: bytes := [0x78, 0x0D, 0x0A];
    assert !(CRLF <= data) && data[1..] == CRLF && CRLF[2..] == [];
    assert Normalize(data[1..]) == [0x0A] + Normalize([]);
  }

  lemma FramesOf(a: FileEntry, b: FileEntry)
    ensures Stream([a, b]) == Frame(a) + Frame(b)
  {
    StreamAppend([], a);
    StreamAppend([a], b);
    assert [] + [a] == [a] && [a] + [b] == [a, b];
    assert Stream([]) + Frame(a) == Frame(a);
  }

  lemma SortedPair(a: FileEntry, b: FileEntry)
    requires Less(a.path, b.path)
    ensures Sorted([b, a]) == [a, b]
  {
    assert [b][..0] == [] && Sorted([]) == [] && Insert([], b) == [b];
    assert Sorted([b]) == [b];
    assert [b, a][..1] == [b];
    assert Insert([b], a) == Insert([], a) + [b] == [a] + [b];
  }

  lemma LengthTexts()
    ensures Ascii(Decimal(0)) == [0x30] && Ascii(Decimal(2)) == [0x32]
  {
    assert Decimal(0) == "0" && Decimal(2) == "2";
  }

  const EMPTY_FRAME: bytes := [0x61, 0x2F, 0x63, 0x00, 0x30, 0x00]
  const NOTE_FRAME: bytes := [0x62, 0x2E, 0x6D, 0x64, 0x00, 0x32, 0x00, 0x78, 0x0A]

  lemma FramesAre()
    ensures Frame(FileEntry(EMPTY_PATH, [])) == EMPTY_FRAME && Frame(FileEntry(NOTE_PATH, [0x78, 0x0A])) == NOTE_FRAME
  {
    LengthTexts();
  }

  lemma StreamIs(note: bytes)
    requires note == [0x78, 0x0D, 0x0A]
    ensures StreamOf([FileEntry(NOTE_PATH, note), FileEntry(EMPTY_PATH, [])]) == EMPTY_FRAME + NOTE_FRAME
  {
    NoteIsText();
    NoteNormalized();
    FramesAre();
    var a, b := FileEntry(EMPTY_PATH, []), FileEntry(NOTE_PATH, [0x78, 0x0A]);
    assert Less(a.path, b.path);
    SortedPair(a, b);
    FramesOf(a, b);
    hide IsTextMaterial, Normalize, Sorted, Stream, Frame, Less;
    assert NormalizeAll([FileEntry(NOTE_PATH, note), a]) == [b, a];
  }

  /** The cache is left out, the path with the smaller bytes comes first, CR LF is one LF, and each file is its path, a
      zero byte, its length in decimal, a zero byte and its content. */
  lemma HashedBytes()
    ensures DigestStream("T1", Dir([NOTE, CACHE, FOLDER])) == Ok(EMPTY_FRAME + NOTE_FRAME)
  {
    WalkFinds();
    StreamIs([0x78, 0x0D, 0x0A]);
    hide WalkChildren, StreamOf;
    assert |"T1"| != |"__pycache__"|;
    assert WalkTask("T1", Dir([NOTE, CACHE, FOLDER])) == WalkChildren([], [NOTE, CACHE, FOLDER]);
  }
}
