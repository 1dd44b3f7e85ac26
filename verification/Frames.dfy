/** The byte stream `Digest` feeds to SHA-256: one frame `path NUL length NUL data` per file
    (internal/catalog/catalog.go). */
module Frames {
  import opened Base
  import opened Text

  datatype FileEntry = FileEntry(path: bytes, data: bytes)

  const NUL: byte := 0

  function ByteOf(c: char): byte { if (c as int) < 0x80 then (c as int) as byte else 0x3F }

  /** The bytes of an ASCII text. */
  function Ascii(s: string): (b: bytes)
    ensures |b| == |s| && forall i :: 0 <= i < |s| ==> b[i] == ByteOf(s[i])
  {
    seq(|s|, i requires 0 <= i < |s| => ByteOf(s[i]))
  }

  function Chars(b: bytes): (s: string)
    ensures |s| == |b| && forall i :: 0 <= i < |b| ==> s[i] == (b[i] as int) as char
  {
    seq(|b|, i requires 0 <= i < |b| => (b[i] as int) as char)
  }

  function Frame(e: FileEntry): bytes {
    e.path + [NUL] + Ascii(Decimal(|e.data|)) + [NUL] + e.data
  }

  function Stream(entries: seq<FileEntry>): bytes {
    if entries == [] then [] else Frame(entries[0]) + Stream(entries[1..])
  }

  lemma {:induction false} StreamAppend(entries: seq<FileEntry>, e: FileEntry)
    ensures Stream(entries + [e]) == Stream(entries) + Frame(e)
  {
    if entries == [] {
      assert entries + [e] == [e] && [e][1..] == [];
    } else {
      assert (entries + [e])[1..] == entries[1..] + [e];
      StreamAppend(entries[1..], e);
    }
  }

  // ----- an independent decoder -----

  function FirstIndex(s: bytes, b: byte): (i: nat)
    ensures i <= |s|
    ensures i < |s| ==> s[i] == b
    ensures b !in s[..i]
  {
    if s == [] || s[0] == b then 0
    else
      var i := FirstIndex(s[1..], b) + 1;
      assert s[..i] == [s[0]] + s[1..][..i - 1];
      i
  }

  lemma FirstIndexAt(before: bytes, b: byte, after: bytes)
    requires b !in before
    ensures FirstIndex(before + [b] + after, b) == |before|
  {
    var s := before + [b] + after;
    assert s[|before|] == b;
    assert FirstIndex(s, b) <= |before|;
  }

  /** The rest of a frame behind its path and NUL: a canonical decimal up to the next NUL, then that many bytes. */
  function DecodeBehindPath(path: bytes, afterPath: bytes): (r: Option<(FileEntry, bytes)>)
    ensures r.Some? ==> |r.value.1| < |afterPath|
  {
    var j := FirstIndex(afterPath, NUL);
    if j == |afterPath| then None
    else
      var digits := Chars(afterPath[..j]);
      if !AllDigits(digits) || !NoLeadingZero(digits) then None
      else
        var body := afterPath[j + 1..];
        var n := DigitsValue(digits);
        if n > |body| then None else Some((FileEntry(path, body[..n]), body[n..]))
  }

  /** Splits the first frame off a stream; its path ends at the first NUL. */
  function DecodeFrame(s: bytes): (r: Option<(FileEntry, bytes)>)
    ensures r.Some? ==> |r.value.1| < |s|
  {
    var i := FirstIndex(s, NUL);
    if i == |s| then None else DecodeBehindPath(s[..i], s[i + 1..])
  }

  function Decode(s: bytes): Option<seq<FileEntry>>
    decreases |s|
  {
    if s == [] then Some([])
    else match DecodeFrame(s)
      case None => None
      case Some((e, rest)) =>
        match Decode(rest)
        case None => None
        case Some(entries) => Some([e] + entries)
  }

  ghost predicate NulFree(entries: seq<FileEntry>) { forall e :: e in entries ==> NUL !in e.path }

  lemma AsciiDigits(s: string)
    requires AllDigits(s)
    ensures NUL !in Ascii(s) && Chars(Ascii(s)) == s
  {
    forall i | 0 <= i < |s|
      ensures ByteOf(s[i]) != NUL && (ByteOf(s[i]) as int) as char == s[i]
    {
      assert IsDigit(s[i]);
    }
  }

  lemma LengthAndDataInvert(e: FileEntry, rest: bytes)
    ensures DecodeBehindPath(e.path, Ascii(Decimal(|e.data|)) + [NUL] + (e.data + rest)) == Some((e, rest))
  {
    var digits, body := Decimal(|e.data|), e.data + rest;
    DecimalValue(|e.data|);
    DecimalHasNoLeadingZero(|e.data|);
    AsciiDigits(digits);
    hide Decimal, DigitsValue, Ascii, Chars;
    var afterPath := Ascii(digits) + [NUL] + body;
    FirstIndexAt(Ascii(digits), NUL, body);
    assert afterPath[..|digits|] == Ascii(digits) && afterPath[|digits| + 1..] == body;
    assert body[..|e.data|] == e.data && body[|e.data|..] == rest;
  }

  lemma DecodeFrameInverts(e: FileEntry, rest: bytes)
    requires NUL !in e.path
    ensures DecodeFrame(Frame(e) + rest) == Some((e, rest))
  {
    hide Decimal, Ascii, DecodeBehindPath;
    var afterPath := Ascii(Decimal(|e.data|)) + [NUL] + (e.data + rest);
    var s := Frame(e) + rest;
    assert s == e.path + [NUL] + afterPath;
    FirstIndexAt(e.path, NUL, afterPath);
    assert s[|e.path| + 1..] == afterPath && s[..|e.path|] == e.path;
    LengthAndDataInvert(e, rest);
  }

  lemma LengthAndDataSound(path: bytes, afterPath: bytes)
    requires DecodeBehindPath(path, afterPath).Some?
    ensures var (e, rest) := DecodeBehindPath(path, afterPath).value;
      e.path == path && afterPath == Ascii(Decimal(|e.data|)) + [NUL] + (e.data + rest)
  {
    var j := FirstIndex(afterPath, NUL);
    var digits, body := Chars(afterPath[..j]), afterPath[j + 1..];
    var n := DigitsValue(digits);
    DigitsAreDecimal(digits);
    AsciiChars(afterPath[..j]);
    SplitAtNul(afterPath, j);
    hide Ascii, Chars, Decimal, DigitsValue, AllDigits;
    assert body == body[..n] + body[n..];
  }

  /** Whatever the decoder accepts as a frame is the frame of what it returns. */
  lemma DecodeFrameSound(s: bytes)
    requires DecodeFrame(s).Some?
    ensures var (e, rest) := DecodeFrame(s).value; NUL !in e.path && s == Frame(e) + rest
  {
    hide Ascii, Decimal, DecodeBehindPath;
    var i := FirstIndex(s, NUL);
    SplitAtNul(s, i);
    LengthAndDataSound(s[..i], s[i + 1..]);
    var (e, rest) := DecodeBehindPath(s[..i], s[i + 1..]).value;
    FrameAssembles(e, rest, Decimal(|e.data|), e.data + rest, s[i + 1..], s);
  }

  lemma AsciiChars(b: bytes)
    requires AllDigits(Chars(b))
    ensures Ascii(Chars(b)) == b
  {
    forall i | 0 <= i < |b|
      ensures ByteOf((b[i] as int) as char) == b[i]
    {
      assert IsDigit(Chars(b)[i]);
    }
  }

  lemma SplitAtNul(s: bytes, i: nat)
    requires i < |s| && s[i] == NUL
    ensures s == s[..i] + [NUL] + s[i + 1..]
  {
  }

  lemma FrameAssembles(e: FileEntry, rest: bytes, digits: string, body: bytes, afterPath: bytes, s: bytes)
    requires digits == Decimal(|e.data|) && body == e.data + rest
    requires afterPath == Ascii(digits) + [NUL] + body && s == e.path + [NUL] + afterPath
    ensures s == Frame(e) + rest
  {
  }

  /** The stream is uniquely decodable: decoding recovers the list of files. */
  lemma {:induction false} DecodeStream(entries: seq<FileEntry>)
    requires NulFree(entries)
    ensures Decode(Stream(entries)) == Some(entries)
  {
    if entries != [] {
      var rest := Stream(entries[1..]);
      DecodeFrameInverts(entries[0], rest);
      DecodeStream(entries[1..]);
      assert Stream(entries) == Frame(entries[0]) + rest;
      assert [entries[0]] + entries[1..] == entries;
    }
  }

  /** And nothing else decodes: the decoder accepts exactly the streams of NUL-free file lists. */
  lemma {:induction false} DecodeIff(s: bytes, entries: seq<FileEntry>)
    ensures Decode(s) == Some(entries) <==> NulFree(entries) && s == Stream(entries)
    decreases |s|
  {
    if NulFree(entries) && s == Stream(entries) {
      DecodeStream(entries);
    }
    if Decode(s) == Some(entries) && s != [] {
      DecodeFrameSound(s);
      var (e, rest) := DecodeFrame(s).value;
      DecodeIff(rest, entries[1..]);
    }
  }

  lemma StreamInjective(a: seq<FileEntry>, b: seq<FileEntry>)
    requires NulFree(a) && NulFree(b) && Stream(a) == Stream(b)
    ensures a == b
  {
    DecodeStream(a);
    DecodeStream(b);
  }
}
