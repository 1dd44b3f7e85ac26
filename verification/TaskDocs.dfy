/** The second, independent reader of the catalog (tools/task_docs_contract.py, `tasks`). */
module TaskDocs {
  import opened Base
  import opened Text
  import opened Identifiers
  import opened Model
  import opened CatalogFile
  import opened CatalogRoundTrip

  // ----- Python's notion of lines and white space -----

  /** `\s` of a text pattern. */
  predicate IsPySpace(c: char) { IsSpace(c) || 0x1C as char <= c <= 0x1F as char }

  /** The characters at which `str.splitlines` cuts. */
  predicate IsLineEnd(c: char) {
    0xA as char <= c <= 0xD as char || 0x1C as char <= c <= 0x1E as char || c == 0x85 as char
    || c == 0x2028 as char || c == 0x2029 as char
  }

  /** Reading in text mode turns CR LF and CR into LF. */
  function TextMode(text: string): string { ReplaceAll(ReplaceAll(text, "\r\n", "\n"), "\r", "\n") }

  function LineEndIndex(s: string): (i: nat)
    ensures i <= |s|
    ensures i < |s| ==> IsLineEnd(s[i])
  {
    if s == "" || IsLineEnd(s[0]) then 0 else LineEndIndex(s[1..]) + 1
  }

  function SplitLines(text: string): seq<string>
    decreases |text|
  {
    if text == "" then []
    else
      var i := LineEndIndex(text);
      [text[..i]] + if i == |text| then [] else SplitLines(text[i + 1..])
  }

  // ----- the reader -----

  datatype Entry = Entry(id: string, dangerous: bool)

  /** Entries so far, and the one being read, if its ID is not empty. */
  datatype Scan = Scan(result: seq<Entry>, id: string, dangerous: bool)

  /** `\s*- id:\s*([A-Za-z0-9][A-Za-z0-9._-]*)\s*$` */
  function MatchID(line: string): Option<string> {
    var rest := TrimLeft(line, IsPySpace);
    if "- id:" <= rest && ValidID(Trim(rest[5..], IsPySpace)) then Some(Trim(rest[5..], IsPySpace)) else None
  }

  /** `\s+dangerous:\s*true\s*$` */
  predicate MatchDangerous(line: string) {
    var rest := TrimLeft(line, IsPySpace);
    rest != line && "dangerous:" <= rest && Trim(rest[10..], IsPySpace) == "true"
  }

  function ScanFlushed(s: Scan): seq<Entry> {
    if s.id != "" then s.result + [Entry(s.id, s.dangerous)] else s.result
  }

  function ScanLine(s: Scan, line: string): Scan {
    match MatchID(line)
    case Some(id) => Scan(ScanFlushed(s), id, false)
    case None => if s.id != "" && MatchDangerous(line) then s.(dangerous := true) else s
  }

  type Scanner = (Scan, string) -> Scan

  function ScanAll(step: Scanner, s: Scan, lines: seq<string>): Scan
    decreases |lines|
  {
    if lines == [] then s else ScanAll(step, step(s, lines[0]), lines[1..])
  }

  function DocTasks(text: string): seq<Entry> {
    ScanFlushed(ScanAll(ScanLine, Scan([], "", false), SplitLines(TextMode(text))))
  }

  /** `tasks()`: one pass, the last entry flushed behind the loop. */
  method Tasks(text: string) returns (result: seq<Entry>)
    ensures result == DocTasks(text)
  {
    result := [];
    var currentID, currentDangerous := "", false;
    var lines := SplitLines(TextMode(text));
    for k := 0 to |lines|
      invariant ScanAll(ScanLine, Scan(result, currentID, currentDangerous), lines[k..])
             == ScanAll(ScanLine, Scan([], "", false), lines)
    {
      assert lines[k..][1..] == lines[k + 1..];
      var id := MatchID(lines[k]);
      if id.Some? {
        if currentID != "" {
          result := result + [Entry(currentID, currentDangerous)];
        }
        currentID, currentDangerous := id.value, false;
      } else if currentID != "" && MatchDangerous(lines[k]) {
        currentDangerous := true;
      }
    }
    if currentID != "" {
      result := result + [Entry(currentID, currentDangerous)];
    }
  }

  // ----- from the text to the pieces Python sees -----

  /** What Python makes of one line of a file: the pieces between the characters at which it cuts. */
  function Pieces(line: string): seq<string> { SplitLines(TextMode(line + "\n")) }

  function PiecesOf(lines: seq<string>): seq<string> {
    if lines == [] then [] else Pieces(lines[0]) + PiecesOf(lines[1..])
  }

  ghost predicate NoLineEnd(s: string) { forall c :: c in s ==> !IsLineEnd(c) }

  /** One line, and its line end cannot be mistaken for CR LF. */
  ghost predicate PlainEnd(line: string) { '\n' !in line && (line != "" ==> line[|line| - 1] != '\r') }

  lemma {:induction false} LineEndIndexIn(a: string, b: string)
    ensures LineEndIndex(a + b) == if LineEndIndex(a) < |a| then LineEndIndex(a) else |a| + LineEndIndex(b)
  {
    if a == "" {
      assert a + b == b;
    } else {
      assert (a + b)[0] == a[0] && (a + b)[1..] == a[1..] + b;
      LineEndIndexIn(a[1..], b);
    }
  }

  lemma {:induction false} NoEndAnywhere(s: string)
    requires NoLineEnd(s)
    ensures LineEndIndex(s) == |s|
  {
    if s != "" {
      assert s[0] in s;
      NoEndAnywhere(s[1..]);
    }
  }

  lemma {:induction false} NoEndBefore(s: string)
    ensures NoLineEnd(s[..LineEndIndex(s)])
  {
    if s != "" && !IsLineEnd(s[0]) {
      NoEndBefore(s[1..]);
      assert s[..LineEndIndex(s)] == [s[0]] + s[1..][..LineEndIndex(s[1..])];
    }
  }

  lemma SplitHead(head: string, end: char, rest: string)
    requires NoLineEnd(head) && IsLineEnd(end)
    ensures SplitLines(head + [end] + rest) == [head] + SplitLines(rest)
  {
    var text := head + [end] + rest;
    LineEndIndexAt(head, end, rest);
    assert text[..|head|] == head && text[|head| + 1..] == rest;
  }

  lemma SplitWhole(a: string, b: string)
    requires NoLineEnd(a)
    ensures SplitLines(a + "\n" + b) == [a] + SplitLines(b)
  {
    assert IsLineEnd('\n') && a + "\n" + b == a + ['\n'] + b;
    SplitHead(a, '\n', b);
  }

  lemma SplitAt(a: string, i: nat, b: string)
    requires i < |a| && NoLineEnd(a[..i]) && IsLineEnd(a[i])
    ensures SplitLines(a + "\n" + b) == [a[..i]] + SplitLines(a[i + 1..] + "\n" + b)
  {
    assert a + "\n" + b == a[..i] + [a[i]] + (a[i + 1..] + "\n" + b);
    SplitHead(a[..i], a[i], a[i + 1..] + "\n" + b);
  }

  /** Behind a line feed the cutting starts afresh. */
  lemma {:induction false} SplitCut(a: string, b: string)
    ensures SplitLines(a + "\n" + b) == SplitLines(a + "\n") + SplitLines(b)
    decreases |a|
  {
    var i := LineEndIndex(a);
    NoEndBefore(a);
    assert SplitLines("") == [];
    hide SplitLines, NoLineEnd, IsLineEnd, LineEndIndex;
    assert a + "\n" + "" == a + "\n";
    if i == |a| {
      assert a[..i] == a;
      SplitWhole(a, b);
      SplitWhole(a, "");
      assert [a] + [] == [a];
    } else {
      var rest := a[i + 1..];
      assert rest + "\n" + "" == rest + "\n";
      SplitAt(a, i, b);
      SplitAt(a, i, "");
      SplitCut(rest, b);
      Associative([a[..i]], SplitLines(rest + "\n"), SplitLines(b));
    }
  }

  lemma {:induction false} CRConcat(a: string, b: string)
    ensures ReplaceAll(a + b, "\r", "\n") == ReplaceAll(a, "\r", "\n") + ReplaceAll(b, "\r", "\n")
  {
    if a == "" {
      assert a + b == b;
    } else {
      assert (a + b)[0] == a[0] && (a + b)[1..] == a[1..] + b;
      assert "\r" <= a + b <==> (a + b)[0] == '\r';
      assert "\r" <= a <==> a[0] == '\r';
      CRConcat(a[1..], b);
    }
  }

  lemma OccurrenceChar(s: string, p: string, i: int, k: nat)
    requires OccursAt(s, p, i) && k < |p|
    ensures s[i + k] == p[k]
  {
    assert s[i + k] == s[i..i + |p|][k];
  }

  lemma CRLFSkips(line: string, rest: string)
    requires PlainEnd(line)
    ensures ReplaceAll(line + "\n" + rest, "\r\n", "\n") == line + "\n" + ReplaceAll(rest, "\r\n", "\n")
  {
    var s := line + "\n" + rest;
    forall j | 0 <= j <= |line|
      ensures !OccursAt(s, "\r\n", j)
    {
      if OccursAt(s, "\r\n", j) {
        OccurrenceChar(s, "\r\n", j, 0);
        OccurrenceChar(s, "\r\n", j, 1);
      }
    }
    ReplaceSkips(s, "\r\n", "\n", |line| + 1);
    assert s[..|line| + 1] == line + "\n" && s[|line| + 1..] == rest;
  }

  lemma TextModeCut(line: string, rest: string)
    requires PlainEnd(line)
    ensures TextMode(line + "\n" + rest) == ReplaceAll(line, "\r", "\n") + "\n" + TextMode(rest)
  {
    CRLFSkips(line, rest);
    CRConcat(line + "\n", ReplaceAll(rest, "\r\n", "\n"));
    CRConcat(line, "\n");
  }

  lemma PiecesBy(line: string)
    requires PlainEnd(line)
    ensures Pieces(line) == SplitLines(ReplaceAll(line, "\r", "\n") + "\n")
  {
    TextModeCut(line, "");
    assert line + "\n" + "" == line + "\n";
    var kept := ReplaceAll(line, "\r", "\n") + "\n";
    assert kept + "" == kept;
  }

  /** Python cuts the lines of a text one by one. */
  lemma {:induction false} PiecesOfUnlines(lines: seq<string>)
    requires forall l :: l in lines ==> PlainEnd(l)
    ensures SplitLines(TextMode(Unlines(lines))) == PiecesOf(lines)
  {
    if lines != [] {
      var l, rest := lines[0], Unlines(lines[1..]);
      assert l in lines;
      TextModeCut(l, rest);
      PiecesBy(l);
      SplitCut(ReplaceAll(l, "\r", "\n"), TextMode(rest));
      PiecesOfUnlines(lines[1..]);
    }
  }

  lemma {:induction false} PiecesOfConcat(a: seq<string>, b: seq<string>)
    ensures PiecesOf(a + b) == PiecesOf(a) + PiecesOf(b)
  {
    if a == [] {
      assert a + b == b;
    } else {
      assert (a + b)[1..] == a[1..] + b;
      PiecesOfConcat(a[1..], b);
    }
  }

  lemma TextModePrefix(head: string, tail: string)
    requires NoLineEnd(head)
    ensures TextMode(head + tail) == head + TextMode(tail)
  {
    var rest := ReplaceAll(tail, "\r\n", "\n");
    NoReturnSkips(head, tail, "\r\n");
    NoReturnSkips(head, rest, "\r");
  }

  lemma NoReturnSkips(head: string, tail: string, p: string)
    requires NoLineEnd(head) && p != "" && p[0] == '\r'
    ensures ReplaceAll(head + tail, p, "\n") == head + ReplaceAll(tail, p, "\n")
  {
    var s := head + tail;
    forall j | 0 <= j < |head|
      ensures !OccursAt(s, p, j)
    {
      assert s[j] in head && IsLineEnd('\r');
      if j + |p| <= |s| {
        assert s[j..j + |p|][0] == s[j];
      }
    }
    ReplaceSkips(s, p, "\n", |head|);
    assert s[..|head|] == head && s[|head|..] == tail;
  }

  /** As far as a line has no line end, it is the start of its first piece. */
  lemma FirstPiece(head: string, tail: string) returns (rest: string)
    requires NoLineEnd(head) && head != ""
    ensures Pieces(head + tail) != [] && Pieces(head + tail)[0] == head + rest
  {
    assert head + tail + "\n" == head + (tail + "\n");
    TextModePrefix(head, tail + "\n");
    var y := TextMode(tail + "\n");
    NoEndAnywhere(head);
    LineEndIndexIn(head, y);
    rest := y[..LineEndIndex(y)];
    assert (head + y)[..|head| + LineEndIndex(y)] == head + rest;
  }

  lemma NoReturnKept(line: string)
    requires NoLineEnd(line)
    ensures ReplaceAll(line, "\r", "\n") == line
  {
    NoReturnSkips(line, "", "\r");
    assert line + "" == line && ReplaceAll("", "\r", "\n") == "";
  }

  lemma WholePiece(line: string)
    requires NoLineEnd(line)
    ensures Pieces(line) == [line]
  {
    assert IsLineEnd('\n') && IsLineEnd('\r');
    PiecesBy(line);
    NoReturnKept(line);
    var text := line + "\n";
    LineEndIndexAt(line, '\n', "");
    assert line + ['\n'] + "" == text;
    assert text[..|line|] == line && text[|line| + 1..] == "";
  }

  lemma {:induction false} LineEndIndexAt(line: string, end: char, rest: string)
    requires NoLineEnd(line) && IsLineEnd(end)
    ensures LineEndIndex(line + [end] + rest) == |line|
  {
    var s := line + [end] + rest;
    if line != "" {
      assert s[0] == line[0] && s[1..] == line[1..] + [end] + rest;
      LineEndIndexAt(line[1..], end, rest);
    }
  }

  // ----- the two patterns and the two tables, spelled out -----

  lemma PySpaceTable(c: char)
    ensures IsPySpace(c) <==>
      c as int in {0x9, 0xA, 0xB, 0xC, 0xD, 0x1C, 0x1D, 0x1E, 0x1F, 0x20, 0x85, 0xA0, 0x1680, 0x2028, 0x2029, 0x202F,
                   0x205F, 0x3000} || 0x2000 <= c as int <= 0x200A
  {
    SpaceTable(c);
  }

  lemma LineEndTable(c: char)
    ensures IsLineEnd(c) <==> c as int in {0xA, 0xB, 0xC, 0xD, 0x1C, 0x1D, 0x1E, 0x85, 0x2028, 0x2029}
  {
  }

  ghost predicate PySpaces(s: string) { AllCut(s, IsPySpace) }

  ghost predicate IDParts(line: string, id: string, a: string, b: string, c: string) {
    line == a + "- id:" + b + id + c && PySpaces(a) && PySpaces(b) && PySpaces(c) && TaskIDText(id)
  }

  /** White space, `- id:`, white space, an ID, white space. */
  lemma MatchIDIff(line: string, id: string)
    ensures MatchID(line) == Some(id) <==> exists a, b, c :: IDParts(line, id, a, b, c)
  {
    ValidIDIff(id);
    hide ValidID, TaskIDText, TrimLeft, TrimRight;
    if MatchID(line) == Some(id) {
      var a, b, c := IDPartsOf(line, id);
    }
    forall a, b, c | IDParts(line, id, a, b, c)
      ensures MatchID(line) == Some(id)
    {
      IDPartsMatch(line, id, a, b, c);
    }
  }

  lemma IDPartsOf(line: string, id: string) returns (a: string, b: string, c: string)
    requires MatchID(line) == Some(id)
    ensures IDParts(line, id, a, b, c)
  {
    ValidIDIff(id);
    a := TrimLeftSplits(line, IsPySpace);
    var rest := TrimLeft(line, IsPySpace);
    hide TrimLeft, Trim, AllCut, ValidID, TaskIDText;
    b, c := TrimSplits(rest[5..], IsPySpace);
    assert rest == "- id:" + rest[5..];
    assert line == a + ("- id:" + (b + id + c));
  }

  lemma IDPartsMatch(line: string, id: string, a: string, b: string, c: string)
    requires IDParts(line, id, a, b, c)
    ensures MatchID(line) == Some(id)
  {
    ValidIDIff(id);
    var body := "- id:" + (b + id + c);
    assert line == a + body;
    TrimLeftPadded(a, body, IsPySpace);
    assert id[0] in id && id[|id| - 1] in id && "- id:" <= body && body[5..] == b + id + c;
    IDCharNoSpace(id[0]);
    IDCharNoSpace(id[|id| - 1]);
    TrimPadded(b, id, c, IsPySpace);
  }

  lemma IDCharNoSpace(c: char)
    requires LetterOrDigit(c) || c == '.' || c == '_' || c == '-'
    ensures !IsPySpace(c)
  {
  }

  ghost predicate MarkParts(line: string, a: string, b: string, c: string) {
    line == a + "dangerous:" + b + "true" + c && a != "" && PySpaces(a) && PySpaces(b) && PySpaces(c)
  }

  /** White space, at least some, `dangerous:`, white space, `true`, white space. */
  lemma MatchDangerousIff(line: string)
    ensures MatchDangerous(line) <==> exists a, b, c :: MarkParts(line, a, b, c)
  {
    hide TrimLeft, TrimRight;
    if MatchDangerous(line) {
      var a, b, c := MarkPartsOf(line);
    }
    forall a, b, c | MarkParts(line, a, b, c)
      ensures MatchDangerous(line)
    {
      MarkPartsMatch(line, a, b, c);
    }
  }

  lemma MarkPartsOf(line: string) returns (a: string, b: string, c: string)
    requires MatchDangerous(line)
    ensures MarkParts(line, a, b, c)
  {
    a := TrimLeftSplits(line, IsPySpace);
    var rest := TrimLeft(line, IsPySpace);
    hide TrimLeft, Trim, AllCut;
    b, c := TrimSplits(rest[10..], IsPySpace);
    assert rest == "dangerous:" + rest[10..];
    assert line == a + ("dangerous:" + (b + "true" + c));
    assert a == "" ==> line == rest;
  }

  lemma MarkPartsMatch(line: string, a: string, b: string, c: string)
    requires MarkParts(line, a, b, c)
    ensures MatchDangerous(line)
  {
    var body := "dangerous:" + (b + "true" + c);
    assert line == a + body && |line| > |body|;
    TrimLeftPadded(a, body, IsPySpace);
    assert "dangerous:" <= body && body[10..] == b + "true" + c;
    TrimPadded(b, "true", c, IsPySpace);
  }

  /** A text without a line end is one piece. */
  lemma LastPiece(s: string)
    requires NoLineEnd(s) && s != ""
    ensures SplitLines(s) == [s]
  {
    NoEndAnywhere(s);
    assert s[..|s|] == s;
  }
}
