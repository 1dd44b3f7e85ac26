/** When the two independent readers of the catalog agree, and on what they do not (internal/catalog/catalog.go, `Load`;
    tools/task_docs_contract.py, `tasks`). */
module ReaderAgreement {
  import opened Base
  import opened Text
  import opened Identifiers
  import opened Model
  import opened CatalogFile
  import opened CatalogRoundTrip
  import opened TaskDocs

  // ----- stray pieces -----

  /** Behind the first piece of a line: an ID or a danger mark that Go does not see. */
  ghost predicate StrayID(line: string) {
    exists k :: 0 < k < |Pieces(line)| && MatchID(Pieces(line)[k]).Some?
  }

  ghost predicate StrayMark(line: string) {
    exists k :: 0 < k < |Pieces(line)| && MatchDangerous(Pieces(line)[k])
  }

  ghost predicate NoStrayID(lines: seq<string>) { forall l :: l in lines ==> !StrayID(l) }

  ghost predicate SomeStrayMark(lines: seq<string>) { exists l :: l in lines && StrayMark(l) }

  lemma OneLineNoStray(line: string)
    requires NoLineEnd(line)
    ensures !StrayID(line) && !StrayMark(line)
  {
    WholePiece(line);
  }

  predicate NoIDs(pieces: seq<string>) { forall k :: 0 <= k < |pieces| ==> MatchID(pieces[k]).None? }

  predicate AnyMark(pieces: seq<string>) { exists k :: 0 <= k < |pieces| && MatchDangerous(pieces[k]) }

  function CountIDs(pieces: seq<string>): nat {
    if pieces == [] then 0 else (if MatchID(pieces[0]).Some? then 1 else 0) + CountIDs(pieces[1..])
  }

  lemma {:induction false} ScanAllConcat(step: Scanner, s: Scan, a: seq<string>, b: seq<string>)
    ensures ScanAll(step, s, a + b) == ScanAll(step, ScanAll(step, s, a), b)
    decreases |a|
  {
    if a == [] {
      assert a + b == b;
    } else {
      assert (a + b)[1..] == a[1..] + b;
      ScanAllConcat(step, step(s, a[0]), a[1..], b);
    }
  }

  lemma AnyMarkStep(pieces: seq<string>)
    requires pieces != []
    ensures AnyMark(pieces) <==> MatchDangerous(pieces[0]) || AnyMark(pieces[1..])
  {
    hide MatchDangerous;
    if k :| 0 <= k < |pieces| && MatchDangerous(pieces[k]) && k > 0 {
      assert pieces[1..][k - 1] == pieces[k];
    }
  }

  /** Within a task, pieces without an ID can only set the mark. */
  lemma {:induction false} ScanMarks(s: Scan, pieces: seq<string>)
    requires s.id != "" && NoIDs(pieces)
    ensures ScanAll(ScanLine, s, pieces) == s.(dangerous := s.dangerous || AnyMark(pieces))
    decreases |pieces|
  {
    hide MatchID, MatchDangerous;
    if pieces != [] {
      AnyMarkStep(pieces);
      ScanMarks(ScanLine(s, pieces[0]), pieces[1..]);
    }
  }

  /** Before the first task, they do nothing. */
  lemma {:induction false} ScanUnnamed(s: Scan, pieces: seq<string>)
    requires s.id == "" && NoIDs(pieces)
    ensures ScanAll(ScanLine, s, pieces) == s
    decreases |pieces|
  {
    hide MatchID, MatchDangerous;
    if pieces != [] {
      ScanUnnamed(s, pieces[1..]);
    }
  }

  /** Every piece with an ID makes one entry. */
  lemma {:induction false} EntriesAreCounted(s: Scan, pieces: seq<string>)
    ensures |ScanFlushed(ScanAll(ScanLine, s, pieces))| == |ScanFlushed(s)| + CountIDs(pieces)
    decreases |pieces|
  {
    if pieces != [] {
      EntriesAreCounted(ScanLine(s, pieces[0]), pieces[1..]);
    }
  }

  lemma {:induction false} CountIDsConcat(a: seq<string>, b: seq<string>)
    ensures CountIDs(a + b) == CountIDs(a) + CountIDs(b)
  {
    hide MatchID;
    if a == [] {
      assert a + b == b;
    } else {
      assert (a + b)[1..] == a[1..] + b;
      CountIDsConcat(a[1..], b);
    }
  }

  lemma {:induction false} IDIsCounted(pieces: seq<string>, k: nat)
    requires k < |pieces| && MatchID(pieces[k]).Some?
    ensures CountIDs(pieces) >= 1
  {
    hide MatchID;
    if k > 0 {
      IDIsCounted(pieces[1..], k - 1);
    }
  }

  lemma {:induction false} StrayIsCounted(lines: seq<string>)
    requires !NoStrayID(lines)
    ensures CountIDs(PiecesOf(lines)) >= 1
  {
    hide MatchID, Pieces;
    CountIDsConcat(Pieces(lines[0]), PiecesOf(lines[1..]));
    if StrayID(lines[0]) {
      var k :| 0 < k < |Pieces(lines[0])| && MatchID(Pieces(lines[0])[k]).Some?;
      IDIsCounted(Pieces(lines[0]), k);
    } else {
      StrayIsCounted(lines[1..]);
    }
  }

  // ----- what the reader makes of each kind of line -----

  lemma PyTrimLeftHead(indent: string, body: string)
    requires AllCut(indent, IsPySpace) && body != "" && !IsPySpace(body[0])
    ensures TrimLeft(indent + body, IsPySpace) == body
  {
    TrimLeftPadded(indent, body, IsPySpace);
  }

  lemma IDLineMatches(id: string)
    requires ValidID(id)
    ensures MatchID("  - id: " + id) == Some(id)
  {
    var body := "- id: " + id;
    assert "  - id: " + id == "  " + body;
    PyTrimLeftHead("  ", body);
    assert id[0] in id && (IsAlnum(id[|id| - 1]) || id[|id| - 1] in "._-");
    assert body[5..] == " " + id + "" && "- id:" <= body;
    TrimPadded(" ", id, "", IsPySpace);
  }

  lemma KeyPrefix(key: string, rest: string, other: string)
    requires PlainKey(key) && PlainKey(other)
    ensures other + ":" <= key + ":" + rest <==> other == key
  {
    var line := key + ":" + rest;
    assert ':' !in key && ':' !in other;
    if other + ":" <= line {
      assert line == other + ":" + line[|other| + 1..];
      IndexOfFirst(key, ':', rest);
      IndexOfFirst(other, ':', line[|other| + 1..]);
      assert key == line[..|key|] && other == line[..|other|];
    }
  }

  /** The first piece of a field line is no ID; if it is a danger mark, the key is `dangerous`. */
  lemma FieldPieceMatches(key: string, rest: string)
    requires PlainKey(key)
    ensures MatchID("    " + key + ":" + rest) == None
    ensures TrimLeft("    " + key + ":" + rest, IsPySpace) == key + ":" + rest
    ensures MatchDangerous("    " + key + ":" + rest) <==> key == "dangerous" && Trim(rest, IsPySpace) == "true"
  {
    var body := key + ":" + rest;
    var piece := "    " + key + ":" + rest;
    assert key[0] in key && body[0] == key[0] != '-';
    assert piece == "    " + body && |piece| != |body|;
    PyTrimLeftHead("    ", body);
    KeysPlain();
    KeyPrefix(key, rest, "dangerous");
    assert "dangerous" + ":" == "dangerous:";
    if key == "dangerous" {
      assert body[10..] == rest;
    }
  }

  lemma QuotedTrue(value: string, quote: string)
    requires AllCut(quote, IsQuote) && (value == "true" || value == "false")
    ensures Trim(" " + (quote + value + quote) + "", IsPySpace) == "true" <==> value == "true" && quote == ""
  {
    var written := quote + value + quote;
    if quote != "" {
      assert quote[0] in quote && quote[|quote| - 1] in quote && written[0] == quote[0];
    }
    TrimPadded(" ", written, "", IsPySpace);
    assert "true"[0] != "false"[0];
  }

  lemma HeaderLineMatches(line: string)
    requires line != "" && !IsPySpace(line[0]) && line[0] != '-'
    ensures MatchID(line) == None && !MatchDangerous(line)
  {
    assert TrimLeft(line, IsPySpace) == line;
  }

  ghost predicate GoodField(f: Field) {
    PlainKey(f.key) && (f.key == "dangerous" ==> f.value == "true" || f.value == "false")
  }

  lemma KeyOneLine(key: string)
    requires PlainKey(key)
    ensures NoLineEnd("    " + key + ":")
  {
  }

  lemma DangerousOneLine(value: string, quote: string)
    requires AllCut(quote, IsQuote) && (value == "true" || value == "false")
    ensures NoLineEnd("    dangerous:" + (" " + quote + value + quote))
  {
    assert NoLineEnd("    dangerous:") && NoLineEnd(" ") && NoLineEnd(quote) && NoLineEnd(value);
  }

  lemma DangerousWhole(value: string, quote: string)
    requires AllCut(quote, IsQuote) && (value == "true" || value == "false")
    ensures Pieces(FieldText("dangerous", value, quote)) == [FieldText("dangerous", value, quote)]
    ensures MatchDangerous(FieldText("dangerous", value, quote)) <==> value == "true" && quote == ""
  {
    hide Pieces, MatchDangerous, NoLineEnd, PlainKey, AllCut, Trim;
    var rest := " " + quote + value + quote;
    var line := "    dangerous:" + rest;
    assert "    " + "dangerous" + ":" == "    dangerous:";
    assert FieldText("dangerous", value, quote) == line;
    KeysPlain();
    DangerousOneLine(value, quote);
    WholePiece(line);
    FieldPieceMatches("dangerous", rest);
    QuotedTrue(value, quote);
    assert rest == " " + (quote + value + quote) + "";
  }

  /** The first piece of a field line is a danger mark exactly for a bare `dangerous: true`. */
  lemma FieldFirstPiece(f: Field, quote: string)
    requires GoodField(f) && AllCut(quote, IsQuote)
    ensures var pieces := Pieces(FieldText(f.key, f.value, quote));
      pieces != [] && MatchID(pieces[0]) == None &&
      (MatchDangerous(pieces[0]) <==> f == Field("dangerous", "true") && quote == "")
  {
    hide MatchID, MatchDangerous, Pieces, PlainKey;
    var head, tail := "    " + f.key + ":", " " + quote + f.value + quote;
    assert FieldText(f.key, f.value, quote) == head + tail;
    KeyOneLine(f.key);
    var rest := FirstPiece(head, tail);
    FieldPieceMatches(f.key, rest);
    if f.key == "dangerous" {
      DangerousWhole(f.value, quote);
    }
  }

  lemma ScanFieldLine(s: Scan, f: Field, quote: string)
    requires s.id != "" && AllCut(quote, IsQuote) && GoodField(f) && !StrayID(FieldText(f.key, f.value, quote))
    ensures var line := FieldText(f.key, f.value, quote);
      ScanAll(ScanLine, s, Pieces(line))
      == s.(dangerous := s.dangerous || (f == Field("dangerous", "true") && quote == "") || StrayMark(line))
  {
    hide MatchID, MatchDangerous, Pieces, GoodField, AllCut;
    FieldFirstPiece(f, quote);
    ScanMarks(s, Pieces(FieldText(f.key, f.value, quote)));
  }

  lemma {:induction false} ScanFieldLines(s: Scan, fields: seq<Field>, quote: string)
    requires s.id != "" && AllCut(quote, IsQuote) && NoStrayID(FieldLines(fields, quote))
    requires forall f :: f in fields ==> GoodField(f)
    ensures ScanAll(ScanLine, s, PiecesOf(FieldLines(fields, quote)))
         == s.(dangerous := s.dangerous || (Field("dangerous", "true") in fields && quote == "")
                            || SomeStrayMark(FieldLines(fields, quote)))
    decreases |fields|
  {
    hide Pieces, ScanLine, GoodField, AllCut, StrayID, StrayMark, FieldText;
    if fields != [] {
      var f := fields[0];
      var line, lines := FieldText(f.key, f.value, quote), FieldLines(fields, quote);
      assert f in fields && lines[0] == line && lines[1..] == FieldLines(fields[1..], quote);
      assert line in lines && forall l :: l in lines[1..] ==> l in lines;
      ScanFieldLine(s, f, quote);
      var s1 := ScanAll(ScanLine, s, Pieces(line));
      ScanFieldLines(s1, fields[1..], quote);
      ScanAllConcat(ScanLine, s, Pieces(line), PiecesOf(lines[1..]));
      assert fields == [f] + fields[1..] && lines == [line] + lines[1..];
      assert SomeStrayMark(lines) <==> StrayMark(line) || SomeStrayMark(lines[1..]);
    }
  }

  lemma TaskFieldsGood(t: Task)
    ensures forall f :: f in TaskFields(t) ==> GoodField(f)
  {
    hide PlainKey, Itoa, LevelText;
    KeysPlain();
    assert |"title"| != |"dangerous"|;
  }

  lemma DangerFieldIff(t: Task)
    ensures Field("dangerous", "true") in TaskFields(t) <==> t.dangerous
  {
    assert Field("dangerous", BoolText(t.dangerous)) in LaterFields(t);
    assert BoolText(t.dangerous) == "true" <==> t.dangerous by {
      assert "true"[0] != "false"[0];
    }
  }

  /** What Python takes for the danger mark of a printed task. */
  ghost predicate SeenDangerous(t: Task, quote: string) {
    (t.dangerous && quote == "") || SomeStrayMark(FieldLines(TaskFields(t), quote))
  }

  ghost function NextScan(s: Scan, t: Task, quote: string): Scan {
    Scan(ScanFlushed(s), t.id, SeenDangerous(t, quote))
  }

  lemma IDLineWhole(id: string)
    requires ValidID(id)
    ensures Pieces("  - id: " + id) == ["  - id: " + id]
  {
    forall c | c in id
      ensures !IsLineEnd(c)
    {
      var i :| 0 <= i < |id| && id[i] == c;
    }
    assert NoLineEnd("  - id: ");
    WholePiece("  - id: " + id);
  }

  lemma ScanTask(s: Scan, t: Task, quote: string)
    requires ValidID(t.id) && AllCut(quote, IsQuote) && NoStrayID(TaskLines(t, quote))
    ensures ScanAll(ScanLine, s, PiecesOf(TaskLines(t, quote))) == NextScan(s, t, quote)
  {
    hide MatchID, MatchDangerous, Pieces, AllCut, StrayID, StrayMark, GoodField, TaskFields;
    IDLineMatches(t.id);
    IDLineWhole(t.id);
    TaskFieldsGood(t);
    DangerFieldIff(t);
    var line, lines := "  - id: " + t.id, FieldLines(TaskFields(t), quote);
    assert TaskLines(t, quote)[1..] == lines && forall l :: l in lines ==> l in TaskLines(t, quote);
    var s1 := Scan(ScanFlushed(s), t.id, false);
    assert [line][0] == line && [line][1..] == [];
    ScanAllConcat(ScanLine, s, [line], PiecesOf(lines));
    ScanFieldLines(s1, TaskFields(t), quote);
  }

  ghost function FoldDocs(s: Scan, tasks: seq<Task>, quote: string): Scan
    decreases |tasks|
  {
    if tasks == [] then s else FoldDocs(NextScan(s, tasks[0], quote), tasks[1..], quote)
  }

  lemma {:induction false} ScanTasks(s: Scan, tasks: seq<Task>, quote: string)
    requires AllCut(quote, IsQuote) && NoStrayID(AllTaskLines(tasks, quote))
    requires forall t :: t in tasks ==> ValidID(t.id)
    ensures ScanAll(ScanLine, s, PiecesOf(AllTaskLines(tasks, quote))) == FoldDocs(s, tasks, quote)
    decreases |tasks|
  {
    hide AllCut, StrayID, TaskLines, NextScan, ScanLine, Pieces;
    if tasks != [] {
      var t := tasks[0];
      var lines, rest := TaskLines(t, quote), AllTaskLines(tasks[1..], quote);
      assert t in tasks && forall u :: u in tasks[1..] ==> u in tasks;
      assert forall l :: l in lines || l in rest ==> l in lines + rest;
      ScanTask(s, t, quote);
      PiecesOfConcat(lines, rest);
      ScanAllConcat(ScanLine, s, PiecesOf(lines), PiecesOf(rest));
      ScanTasks(NextScan(s, t, quote), tasks[1..], quote);
    }
  }

  // ----- what both readers see -----

  /** The entries of the catalog Go loads. */
  function EntriesOf(tasks: seq<Task>): (entries: seq<Entry>)
    ensures |entries| == |tasks|
    ensures forall i :: 0 <= i < |tasks| ==> entries[i] == Entry(tasks[i].id, tasks[i].dangerous)
  {
    seq(|tasks|, i requires 0 <= i < |tasks| => Entry(tasks[i].id, tasks[i].dangerous))
  }

  ghost function SeenEntries(tasks: seq<Task>, quote: string): (entries: seq<Entry>)
    ensures |entries| == |tasks|
    ensures forall i :: 0 <= i < |tasks| ==> entries[i] == Entry(tasks[i].id, SeenDangerous(tasks[i], quote))
  {
    seq(|tasks|, i requires 0 <= i < |tasks| => Entry(tasks[i].id, SeenDangerous(tasks[i], quote)))
  }

  lemma NextFlushed(s: Scan, t: Task, quote: string)
    requires t.id != ""
    ensures ScanFlushed(NextScan(s, t, quote)) == ScanFlushed(s) + [Entry(t.id, SeenDangerous(t, quote))]
  {
  }

  lemma SeenEntriesStep(tasks: seq<Task>, quote: string)
    requires tasks != []
    ensures SeenEntries(tasks, quote)
         == [Entry(tasks[0].id, SeenDangerous(tasks[0], quote))] + SeenEntries(tasks[1..], quote)
  {
    hide SeenDangerous;
  }

  lemma {:induction false} FoldDocsFlushed(s: Scan, tasks: seq<Task>, quote: string)
    requires forall t :: t in tasks ==> t.id != ""
    ensures ScanFlushed(FoldDocs(s, tasks, quote)) == ScanFlushed(s) + SeenEntries(tasks, quote)
    decreases |tasks|
  {
    hide NextScan, ScanFlushed, SeenDangerous, SeenEntries;
    if tasks == [] {
      assert ScanFlushed(s) + SeenEntries([], quote) == ScanFlushed(s);
    } else {
      var t := tasks[0];
      assert t in tasks && forall u :: u in tasks[1..] ==> u in tasks;
      NextFlushed(s, t, quote);
      SeenEntriesStep(tasks, quote);
      FoldDocsFlushed(NextScan(s, t, quote), tasks[1..], quote);
      Associative(ScanFlushed(s), [Entry(t.id, SeenDangerous(t, quote))], SeenEntries(tasks[1..], quote));
    }
  }

  function HeaderLines(suite: string): seq<string> { ["suite: " + suite, "tasks:"] }

  lemma HeaderPieces(suite: string)
    ensures PiecesOf(HeaderLines(suite)) == Pieces("suite: " + suite) + ["tasks:"]
    ensures var pieces := Pieces("suite: " + suite); pieces != [] && MatchID(pieces[0]) == None
    ensures MatchID("tasks:") == None
  {
    hide MatchID, Pieces;
    var line := "suite: " + suite;
    var rest := FirstPiece("suite: ", suite);
    HeaderLineMatches("suite: " + rest);
    HeaderLineMatches("tasks:");
    WholePiece("tasks:");
    assert HeaderLines(suite)[1..] == ["tasks:"] && ["tasks:"][1..] == [];
    assert ["tasks:"] + [] == ["tasks:"];
  }

  lemma ScanHeader(suite: string)
    requires !StrayID("suite: " + suite)
    ensures ScanAll(ScanLine, Scan([], "", false), PiecesOf(HeaderLines(suite))) == Scan([], "", false)
  {
    hide MatchID, Pieces;
    HeaderPieces(suite);
    ScanUnnamed(Scan([], "", false), PiecesOf(HeaderLines(suite)));
  }

  // ----- no line of a printed catalog ends in CR -----

  lemma FieldTextEnds(f: Field, quote: string)
    requires AllCut(quote, IsQuote) && Writable(f.value, quote)
    ensures var line := FieldText(f.key, f.value, quote); line != "" && line[|line| - 1] != '\r'
  {
    var line := FieldText(f.key, f.value, quote);
    if quote != "" {
      assert quote[|quote| - 1] in quote && line[|line| - 1] == quote[|quote| - 1];
    } else if f.value != "" {
      assert line[|line| - 1] == f.value[|f.value| - 1] && IsSpace('\r');
    } else {
      assert line[|line| - 1] == ' ';
    }
  }

  lemma {:induction false} FieldLinesEnd(fields: seq<Field>, quote: string)
    requires AllCut(quote, IsQuote) && forall f :: f in fields ==> Writable(f.value, quote)
    ensures forall l :: l in FieldLines(fields, quote) ==> l != "" && l[|l| - 1] != '\r'
  {
    hide FieldText, AllCut, Writable;
    if fields != [] {
      assert fields[0] in fields && forall g :: g in fields[1..] ==> g in fields;
      FieldTextEnds(fields[0], quote);
      FieldLinesEnd(fields[1..], quote);
      var line, rest := FieldText(fields[0].key, fields[0].value, quote), FieldLines(fields[1..], quote);
      forall l | l in [line] + rest
        ensures l != "" && l[|l| - 1] != '\r'
      {
        assert l == line || l in rest;
      }
    }
  }

  lemma OneTaskEnds(t: Task, quote: string)
    requires AllCut(quote, IsQuote) && WritableTask(t, quote) && ValidID(t.id)
    ensures forall l :: l in TaskLines(t, quote) ==> l != "" && l[|l| - 1] != '\r'
  {
    hide AllCut, TaskFields, FieldText, PlainKey, Writable;
    TaskFieldsPlain(t, quote);
    FieldLinesEnd(TaskFields(t), quote);
    var line := "  - id: " + t.id;
    assert line[|line| - 1] == t.id[|t.id| - 1];
  }

  lemma {:induction false} TaskLinesEnd(tasks: seq<Task>, quote: string)
    requires AllCut(quote, IsQuote) && forall t :: t in tasks ==> WritableTask(t, quote) && ValidID(t.id)
    ensures forall l :: l in AllTaskLines(tasks, quote) ==> l != "" && l[|l| - 1] != '\r'
  {
    hide AllCut, WritableTask, TaskLines, ValidID;
    if tasks != [] {
      var t := tasks[0];
      assert t in tasks && forall u :: u in tasks[1..] ==> u in tasks;
      OneTaskEnds(t, quote);
      TaskLinesEnd(tasks[1..], quote);
    }
  }

  lemma CatalogLinesPlain(suite: string, tasks: seq<Task>, quote: string)
    requires WritableCatalog(suite, tasks, quote) && forall t :: t in tasks ==> ValidID(t.id)
    ensures forall l :: l in CatalogLines(suite, tasks, quote) ==> PlainEnd(l)
  {
    hide WritableTask, AllCut, AllTaskLines;
    CatalogLinesSingle(suite, tasks, quote);
    TaskLinesEnd(tasks, quote);
    var line := "suite: " + suite;
    if suite != "" {
      assert line[|line| - 1] == suite[|suite| - 1] && IsSpace('\r');
    }
  }

  // ----- both readers agree -----

  lemma DocTasksByPieces(suite: string, tasks: seq<Task>, quote: string)
    requires WritableCatalog(suite, tasks, quote) && forall t :: t in tasks ==> ValidID(t.id)
    ensures DocTasks(Render(suite, tasks, quote))
         == ScanFlushed(ScanAll(ScanLine, ScanAll(ScanLine, Scan([], "", false), PiecesOf(HeaderLines(suite))),
                                PiecesOf(AllTaskLines(tasks, quote))))
  {
    hide WritableCatalog, ScanLine, Pieces, AllTaskLines, ScanFlushed, TextMode;
    CatalogLinesPlain(suite, tasks, quote);
    PiecesOfUnlines(CatalogLines(suite, tasks, quote));
    PiecesOfConcat(HeaderLines(suite), AllTaskLines(tasks, quote));
    ScanAllConcat(ScanLine, Scan([], "", false), PiecesOf(HeaderLines(suite)), PiecesOf(AllTaskLines(tasks, quote)));
  }

  lemma DocTasksOfRendered(suite: string, tasks: seq<Task>, quote: string)
    requires WritableCatalog(suite, tasks, quote) && forall t :: t in tasks ==> ValidID(t.id)
    requires NoStrayID(CatalogLines(suite, tasks, quote))
    ensures DocTasks(Render(suite, tasks, quote)) == SeenEntries(tasks, quote)
  {
    hide ScanLine, Pieces, AllTaskLines, StrayID, WritableTask, AllCut, NextScan;
    var lines := CatalogLines(suite, tasks, quote);
    assert lines[0] in lines && forall l :: l in AllTaskLines(tasks, quote) ==> l in lines;
    DocTasksByPieces(suite, tasks, quote);
    ScanHeader(suite);
    ScanTasks(Scan([], "", false), tasks, quote);
    FoldDocsFlushed(Scan([], "", false), tasks, quote);
    assert [] + SeenEntries(tasks, quote) == SeenEntries(tasks, quote);
  }

  lemma OneTaskCounts(t: Task, quote: string)
    requires ValidID(t.id)
    ensures CountIDs(PiecesOf(TaskLines(t, quote))) >= if NoStrayID(TaskLines(t, quote)) then 1 else 2
  {
    hide MatchID, Pieces, FieldText, TaskFields;
    IDLineMatches(t.id);
    IDLineWhole(t.id);
    var line, lines := "  - id: " + t.id, FieldLines(TaskFields(t), quote);
    assert TaskLines(t, quote)[1..] == lines;
    assert [line][0] == line && [line][1..] == [];
    CountIDsConcat([line], PiecesOf(lines));
    if !NoStrayID(TaskLines(t, quote)) {
      var l :| l in TaskLines(t, quote) && StrayID(l);
      assert l in lines;
      StrayIsCounted(lines);
    }
  }

  lemma {:induction false} TasksCount(tasks: seq<Task>, quote: string)
    requires forall t :: t in tasks ==> ValidID(t.id)
    ensures var n := CountIDs(PiecesOf(AllTaskLines(tasks, quote)));
      n >= |tasks| && (!NoStrayID(AllTaskLines(tasks, quote)) ==> n > |tasks|)
  {
    hide MatchID, Pieces, TaskLines, StrayID;
    if tasks != [] {
      var t := tasks[0];
      var lines, rest := TaskLines(t, quote), AllTaskLines(tasks[1..], quote);
      assert t in tasks && forall u :: u in tasks[1..] ==> u in tasks;
      OneTaskCounts(t, quote);
      TasksCount(tasks[1..], quote);
      PiecesOfConcat(lines, rest);
      CountIDsConcat(PiecesOf(lines), PiecesOf(rest));
      assert forall l :: l in lines + rest ==> l in lines || l in rest;
    }
  }

  lemma StrayMeansMore(suite: string, tasks: seq<Task>, quote: string)
    requires WritableCatalog(suite, tasks, quote) && forall t :: t in tasks ==> ValidID(t.id)
    requires !NoStrayID(CatalogLines(suite, tasks, quote))
    ensures |DocTasks(Render(suite, tasks, quote))| > |tasks|
  {
    hide ScanLine, ScanFlushed, Pieces, AllTaskLines, StrayID, WritableCatalog;
    DocTasksByPieces(suite, tasks, quote);
    var header, body := PiecesOf(HeaderLines(suite)), PiecesOf(AllTaskLines(tasks, quote));
    var s := Scan([], "", false);
    EntriesAreCounted(s, header);
    EntriesAreCounted(ScanAll(ScanLine, s, header), body);
    TasksCount(tasks, quote);
    var l :| l in CatalogLines(suite, tasks, quote) && StrayID(l);
    if l !in AllTaskLines(tasks, quote) {
      assert l in HeaderLines(suite);
      StrayIsCounted(HeaderLines(suite));
    }
  }

  /** On every printed catalog with valid IDs both readers see the same tasks and danger marks, the last entry included,
      exactly when no line continues, behind a character at which only Python cuts, with something Python takes for an
      ID, and what Python takes for the mark of a task is its mark: that of a bare value, or a stray one. */
  lemma ReadersAgreeIff(suite: string, tasks: seq<Task>, quote: string, requested: string)
    requires WritableCatalog(suite, tasks, quote) && SuiteAvailable(requested, suite) && tasks != []
    requires AllFit(CatalogLines(suite, tasks, quote)) && forall t :: t in tasks ==> ValidID(t.id)
    ensures Loaded(Some(Render(suite, tasks, quote)), requested) == Ok(tasks)
    ensures DocTasks(Render(suite, tasks, quote)) == EntriesOf(tasks) <==>
      NoStrayID(CatalogLines(suite, tasks, quote)) &&
      forall t :: t in tasks ==> (SeenDangerous(t, quote) <==> t.dangerous)
  {
    hide WritableCatalog, CatalogLines, AllFit, SeenDangerous, NoStrayID, DocTasks, Loaded;
    RoundTrip(suite, tasks, quote, requested);
    if NoStrayID(CatalogLines(suite, tasks, quote)) {
      DocTasksOfRendered(suite, tasks, quote);
      SameEntriesIff(tasks, quote);
    } else {
      StrayMeansMore(suite, tasks, quote);
    }
  }

  lemma SameEntriesIff(tasks: seq<Task>, quote: string)
    ensures SeenEntries(tasks, quote) == EntriesOf(tasks)
       <==> forall t :: t in tasks ==> (SeenDangerous(t, quote) <==> t.dangerous)
  {
    hide SeenDangerous;
    if SeenEntries(tasks, quote) == EntriesOf(tasks) {
      forall t | t in tasks
        ensures SeenDangerous(t, quote) <==> t.dangerous
      {
        var i :| 0 <= i < |tasks| && tasks[i] == t;
        assert SeenEntries(tasks, quote)[i] == EntriesOf(tasks)[i];
      }
    } else {
      var i :| 0 <= i < |tasks| && SeenEntries(tasks, quote)[i] != EntriesOf(tasks)[i];
      assert tasks[i] in tasks;
    }
  }

  /** With bare values: exactly when no stray piece is an ID, and stray marks stand in dangerous tasks only. */
  lemma BareReadersAgreeIff(suite: string, tasks: seq<Task>, requested: string)
    requires WritableCatalog(suite, tasks, "") && SuiteAvailable(requested, suite) && tasks != []
    requires AllFit(CatalogLines(suite, tasks, "")) && forall t :: t in tasks ==> ValidID(t.id)
    ensures DocTasks(Render(suite, tasks, "")) == EntriesOf(tasks) <==>
      NoStrayID(CatalogLines(suite, tasks, "")) &&
      forall t :: t in tasks && SomeStrayMark(FieldLines(TaskFields(t), "")) ==> t.dangerous
  {
    hide WritableCatalog, AllFit, NoStrayID, DocTasks, Loaded, CatalogLines, SomeStrayMark, TaskFields;
    ReadersAgreeIff(suite, tasks, "", requested);
  }

  ghost predicate OneLineTask(t: Task) {
    NoLineEnd(t.digest) && NoLineEnd(t.family) && NoLineEnd(t.title) && NoLineEnd(LevelText(t.level)) &&
    NoLineEnd(t.description)
  }

  lemma TaskFieldNoStray(t: Task, f: Field, quote: string)
    requires OneLineTask(t) && AllCut(quote, IsQuote) && f in TaskFields(t)
    ensures !StrayID(FieldText(f.key, f.value, quote)) && !StrayMark(FieldText(f.key, f.value, quote))
  {
    hide PlainKey, StrayID, StrayMark;
    TaskFieldOneLine(t, f);
    KeyOneLine(f.key);
    assert NoLineEnd(quote);
    var head := "    " + f.key + ":";
    assert FieldText(f.key, f.value, quote) == head + " " + quote + f.value + quote;
    OneLineNoStray(FieldText(f.key, f.value, quote));
  }

  lemma TaskFieldOneLine(t: Task, f: Field)
    requires OneLineTask(t) && f in TaskFields(t)
    ensures PlainKey(f.key) && NoLineEnd(f.value)
  {
    hide PlainKey;
    KeysPlain();
    if f in LaterFields(t) {
      assert f.key in {"title", "level", "dangerous", "description"};
    } else {
      assert f.key in {"version", "sha256", "family"};
    }
  }

  lemma {:induction false} FieldLinesNoStray(t: Task, fields: seq<Field>, quote: string)
    requires OneLineTask(t) && AllCut(quote, IsQuote) && forall f :: f in fields ==> f in TaskFields(t)
    ensures forall l :: l in FieldLines(fields, quote) ==> !StrayID(l) && !StrayMark(l)
  {
    hide StrayID, StrayMark, TaskFields, FieldText, AllCut;
    if fields != [] {
      assert fields[0] in fields && forall g :: g in fields[1..] ==> g in fields;
      TaskFieldNoStray(t, fields[0], quote);
      FieldLinesNoStray(t, fields[1..], quote);
    }
  }

  lemma {:induction false} TaskLinesNoStray(tasks: seq<Task>, quote: string)
    requires AllCut(quote, IsQuote) && forall t :: t in tasks ==> ValidID(t.id) && OneLineTask(t)
    ensures NoStrayID(AllTaskLines(tasks, quote))
    ensures forall t :: t in tasks ==> !SomeStrayMark(FieldLines(TaskFields(t), quote))
  {
    hide StrayMark, TaskFields, FieldText, AllCut, OneLineTask, Pieces;
    if tasks != [] {
      var t := tasks[0];
      assert tasks == [t] + tasks[1..];
      IDLineWhole(t.id);
      FieldLinesNoStray(t, TaskFields(t), quote);
      TaskLinesNoStray(tasks[1..], quote);
    }
  }

  /** If no value has a character at which Python cuts: exactly when values are bare or nothing is dangerous, since
      the Python reader does not recognise a quoted mark. */
  lemma OneLineReadersAgreeIff(suite: string, tasks: seq<Task>, quote: string, requested: string)
    requires WritableCatalog(suite, tasks, quote) && SuiteAvailable(requested, suite) && tasks != []
    requires AllFit(CatalogLines(suite, tasks, quote)) && forall t :: t in tasks ==> ValidID(t.id)
    requires NoLineEnd(suite) && forall t :: t in tasks ==> OneLineTask(t)
    ensures DocTasks(Render(suite, tasks, quote)) == EntriesOf(tasks)
       <==> quote == "" || forall t :: t in tasks ==> !t.dangerous
  {
    hide AllFit, DocTasks, Loaded, AllTaskLines, SomeStrayMark, StrayID, WritableTask, OneLineTask, TaskFields;
    ReadersAgreeIff(suite, tasks, quote, requested);
    TaskLinesNoStray(tasks, quote);
    OneLineNoStray("suite: " + suite);
    OneLineNoStray("tasks:");
  }

  // ----- where they disagree -----

  const MARK := " dangerous: true"

  lemma MarkMatches()
    ensures MatchDangerous(MARK)
  {
    var body := "dangerous: true";
    assert MARK == " " + body;
    PyTrimLeftHead(" ", body);
    assert body[10..] == " " + "true" + "";
    TrimPadded(" ", "true", "", IsPySpace);
  }

  lemma MarkOneLine()
    ensures NoLineEnd(MARK) && MARK[|MARK| - 1] == 'e'
  {
  }

  lemma TitleHeadOneLine(head: string)
    requires NoLineEnd(head)
    ensures NoLineEnd("    title: " + head)
  {
    assert NoLineEnd("    title: ");
  }

  lemma TwoPieces(head: string, cut: char, tail: string)
    requires NoLineEnd(head) && IsLineEnd(cut) && NoLineEnd(tail)
    ensures SplitLines(head + [cut] + tail + "\n") == [head, tail]
  {
    assert SplitLines("") == [];
    hide SplitLines, NoLineEnd, IsLineEnd;
    assert head + [cut] + tail + "\n" == head + [cut] + (tail + "\n");
    SplitHead(head, cut, tail + "\n");
    SplitWhole(tail, "");
    assert tail + "\n" + "" == tail + "\n" && [tail] + [] == [tail];
  }

  lemma PlainPieces(head: string, end: char, tail: string)
    requires NoLineEnd(head) && end != '\n' && NoLineEnd(tail) && tail != ""
    ensures PlainEnd(head + [end] + tail)
  {
    assert IsLineEnd('\n') && IsLineEnd('\r');
  }

  /** At every line-end character but LF, Python cuts a line where Go reads on. */
  lemma CutInTwo(head: string, end: char, tail: string)
    requires NoLineEnd(head) && IsLineEnd(end) && end != '\n' && NoLineEnd(tail) && tail != ""
    ensures Pieces(head + [end] + tail) == [head, tail]
  {
    var cut := if end == '\r' then '\n' else end;
    assert IsLineEnd(cut);
    hide NoLineEnd, IsLineEnd, SplitLines, ReplaceAll, PlainEnd, Pieces;
    PlainPieces(head, end, tail);
    PiecesBy(head + [end] + tail);
    EndReplaced(head, end, tail, cut);
    TwoPieces(head, cut, tail);
  }

  lemma OneReplaced(end: char)
    ensures ReplaceAll([end], "\r", "\n") == [if end == '\r' then '\n' else end]
  {
    assert [end][1..] == "" && "\r" == ['\r'];
    assert "\r" <= [end] <==> [end][0] == '\r';
  }

  lemma EndReplaced(head: string, end: char, tail: string, cut: char)
    requires NoLineEnd(head) && NoLineEnd(tail) && cut == if end == '\r' then '\n' else end
    ensures ReplaceAll(head + [end] + tail, "\r", "\n") == head + [cut] + tail
  {
    hide ReplaceAll, NoLineEnd;
    CRConcat(head + [end], tail);
    CRConcat(head, [end]);
    NoReturnKept(head);
    NoReturnKept(tail);
    OneReplaced(end);
  }

  lemma TitleIsCut(head: string, end: char)
    requires NoLineEnd(head) && IsLineEnd(end) && end != '\n'
    ensures Pieces(FieldText("title", head + [end] + MARK, "")) == ["    title: " + head, MARK]
  {
    hide NoLineEnd, Pieces;
    var start := "    title: " + head;
    assert FieldText("title", head + [end] + MARK, "") == start + [end] + MARK;
    MarkOneLine();
    TitleHeadOneLine(head);
    CutInTwo(start, end, MARK);
  }

  /** Printed catalogs on which the readers disagree: a harmless task whose title goes on, behind any line-end character
      but LF, with a danger mark. Go loads the tasks as printed, Python takes the task for dangerous. */
  lemma ReadersDisagree(suite: string, tasks: seq<Task>, requested: string, i: nat, head: string, end: char)
    requires WritableCatalog(suite, tasks, "") && SuiteAvailable(requested, suite)
    requires AllFit(CatalogLines(suite, tasks, "")) && forall t :: t in tasks ==> ValidID(t.id)
    requires i < |tasks| && !tasks[i].dangerous && tasks[i].title == head + [end] + MARK
    requires NoLineEnd(head) && IsLineEnd(end) && end != '\n'
    ensures Loaded(Some(Render(suite, tasks, "")), requested) == Ok(tasks)
    ensures DocTasks(Render(suite, tasks, "")) != EntriesOf(tasks)
  {
    hide WritableCatalog, AllFit, NoStrayID, DocTasks, Loaded, CatalogLines, Pieces, MatchDangerous;
    ReadersAgreeIff(suite, tasks, "", requested);
    var t := tasks[i];
    assert t in tasks;
    TitleIsCut(head, end);
    MarkMatches();
    var line := FieldText("title", t.title, "");
    assert MatchDangerous(Pieces(line)[1]) && StrayMark(line);
    TitleLineIn(t);
    assert SeenDangerous(t, "");
  }

  lemma {:induction false} FieldLineIn(fields: seq<Field>, f: Field, quote: string)
    requires f in fields
    ensures FieldText(f.key, f.value, quote) in FieldLines(fields, quote)
  {
    hide FieldText;
    if f != fields[0] {
      assert f in fields[1..];
      FieldLineIn(fields[1..], f, quote);
    }
  }

  lemma TitleLineIn(t: Task)
    ensures FieldText("title", t.title, "") in FieldLines(TaskFields(t), "")
  {
    assert Field("title", t.title) in LaterFields(t);
    FieldLineIn(TaskFields(t), Field("title", t.title), "");
  }

  // ----- one such catalog in full -----

  const VERTICAL_TAB: char := '\U{000B}'

  const ODD_TASK := Task("T1", 1, "", "", "x" + [VERTICAL_TAB] + MARK, L1, false, "")

  lemma {:induction false} Utf8Short(s: string)
    ensures |Utf8(s)| <= 4 * |s|
  {
    if s != "" {
      Utf8Short(s[1..]);
    }
  }

  lemma {:induction false} ShortFieldsFit(fields: seq<Field>)
    requires forall f :: f in fields ==> |f.key| + |f.value| <= 1000
    ensures AllFit(FieldLines(fields, ""))
  {
    hide Utf8;
    if fields != [] {
      assert fields[0] in fields && forall g :: g in fields[1..] ==> g in fields;
      Utf8Short(FieldText(fields[0].key, fields[0].value, ""));
      ShortFieldsFit(fields[1..]);
    }
  }

  lemma ShortTaskFits(t: Task)
    requires |t.id| <= 1000 && forall f :: f in TaskFields(t) ==> |f.key| + |f.value| <= 1000
    ensures AllFit(CatalogLines("", [t], ""))
  {
    hide Utf8, TaskFields;
    ShortFieldsFit(TaskFields(t));
    Utf8Short("  - id: " + t.id);
    Utf8Short("suite: " + "");
    Utf8Short("tasks:");
    assert [t][0] == t && [t][1..] == [];
    assert AllTaskLines([t], "") == TaskLines(t, "") + [];
  }

  lemma OddFieldsShort()
    ensures forall f :: f in TaskFields(ODD_TASK) ==> |f.key| + |f.value| <= 1000
  {
    assert Itoa(1) == "1";
  }

  lemma OddTitleWritable()
    ensures Writable(ODD_TASK.title, "") && NoLineEnd("x")
  {
    MarkOneLine();
    var title := ODD_TASK.title;
    assert IsLineEnd('\n') && title[0] == 'x' && title[|title| - 1] == MARK[|MARK| - 1];
  }

  lemma OddTaskWritable()
    ensures WritableTask(ODD_TASK, "") && ValidID(ODD_TASK.id)
  {
    OddTitleWritable();
    hide MARK;
  }

  /** The title `x`, a vertical tab and a danger mark, in a task that is not dangerous. */
  lemma OddCatalogDisagrees()
    ensures Loaded(Some(Render("", [ODD_TASK], "")), "") == Ok([ODD_TASK])
    ensures DocTasks(Render("", [ODD_TASK], "")) != EntriesOf([ODD_TASK])
  {
    hide WritableTask, AllFit, DocTasks, Loaded, CatalogLines, NoLineEnd;
    OddTaskWritable();
    OddTitleWritable();
    OddFieldsShort();
    ShortTaskFits(ODD_TASK);
    ReadersDisagree("", [ODD_TASK], "", 0, "x", VERTICAL_TAB);
  }
}
