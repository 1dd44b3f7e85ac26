/** Writing a catalog and loading it again (internal/catalog/catalog.go, tasks/catalog.yaml). */
module CatalogRoundTrip {
  import opened Base
  import opened Text
  import opened Model
  import opened CatalogFile

  // ----- from text to lines -----

  function Unlines(lines: seq<string>): string {
    if lines == [] then "" else lines[0] + "\n" + Unlines(lines[1..])
  }

  function ReadLines(step: Interpreter, r: Reading, lines: seq<string>): Result<Reading, LoadError>
    decreases |lines|
  {
    if lines == [] then Ok(r)
    else match step(r, lines[0])
      case Err(error) => Err(error)
      case Ok(next) => ReadLines(step, next, lines[1..])
  }

  ghost predicate SingleLines(lines: seq<string>) { forall l :: l in lines ==> '\n' !in l }

  ghost predicate AllFit(lines: seq<string>) { forall l :: l in lines ==> FitsScanner(l) }

  lemma DropCRInvisible(line: string)
    ensures Classify(DropCR(line)) == Classify(line)
  {
    if line != "" && line[|line| - 1] == '\r' {
      var kept := line[..|line| - 1];
      assert line == kept + "\r";
      TrimmedTail(kept, "\r");
    }
  }

  /** White space at the end of a line is invisible. */
  lemma TrimmedTail(line: string, pad: string)
    requires AllCut(pad, IsSpace)
    ensures TrimSpace(line + pad) == TrimSpace(line)
  {
    var r := TrimLeft(line, IsSpace);
    TrimLeftTail(line, pad);
    if r == "" {
      TrimLeftPadded(pad, "", IsSpace);
      assert pad + "" == pad;
    } else {
      TrimRightPadded(r, pad, IsSpace);
    }
  }

  lemma {:induction false} TrimLeftTail(line: string, pad: string)
    ensures TrimLeft(line, IsSpace) != "" ==> TrimLeft(line + pad, IsSpace) == TrimLeft(line, IsSpace) + pad
    ensures TrimLeft(line, IsSpace) == "" ==> TrimLeft(line + pad, IsSpace) == TrimLeft(pad, IsSpace)
  {
    if line == "" {
      assert line + pad == pad;
    } else if IsSpace(line[0]) {
      assert (line + pad)[1..] == line[1..] + pad;
      TrimLeftTail(line[1..], pad);
    }
  }

  lemma FirstLine(l: string, rest: string)
    requires '\n' !in l
    ensures var text := l + "\n" + rest; text[..IndexOf(text, '\n')] == l && AfterLine(text) == rest
  {
    IndexOfFirst(l, '\n', rest);
  }

  /** The scanner hands the interpreter exactly the lines; one that does not fit its buffer ends the reading. */
  lemma {:induction false} ReadTextOfLines(step: Interpreter, r: Reading, lines: seq<string>)
    requires SingleLines(lines)
    ensures AllFit(lines) ==> ReadText(step, r, Unlines(lines)) == ReadLines(step, r, lines)
    ensures !AllFit(lines) ==> ReadText(step, r, Unlines(lines)).Err?
    decreases |lines|
  {
    if lines != [] {
      var l, rest := lines[0], Unlines(lines[1..]);
      assert lines == [l] + lines[1..];
      FirstLine(l, rest);
      match step(r, l)
      case Err(_) =>
      case Ok(next) => ReadTextOfLines(step, next, lines[1..]);
    }
  }

  // ----- layout is irrelevant -----

  /** What the lines of a text say, without the lines that say nothing. */
  function Meaning(lines: seq<string>): seq<Line> {
    if lines == [] then []
    else (if Classify(lines[0]).Ignored? then [] else [Classify(lines[0])]) + Meaning(lines[1..])
  }

  function ApplyAll(r: Reading, meaning: seq<Line>): Result<Reading, LoadError>
    decreases |meaning|
  {
    if meaning == [] then Ok(r)
    else match Apply(r, meaning[0])
      case Err(error) => Err(error)
      case Ok(next) => ApplyAll(next, meaning[1..])
  }

  lemma MeaningStep(r: Reading, line: string, rest: seq<string>)
    ensures Meaning([line] + rest) == (if Classify(line).Ignored? then [] else [Classify(line)]) + Meaning(rest)
    ensures Interpret(r, line) == Apply(r, Classify(line))
    ensures Classify(line).Ignored? ==> Interpret(r, line) == Ok(r)
  {
    DropCRInvisible(line);
    assert ([line] + rest)[1..] == rest;
  }

  lemma ApplyAllStep(r: Reading, l: Line, rest: seq<Line>)
    ensures ApplyAll(r, [l] + rest) == if Apply(r, l).Ok? then ApplyAll(Apply(r, l).value, rest) else Apply(r, l)
  {
    assert ([l] + rest)[1..] == rest;
  }

  lemma {:induction false} ReadLinesByMeaning(r: Reading, lines: seq<string>)
    ensures ReadLines(Interpret, r, lines) == ApplyAll(r, Meaning(lines))
    decreases |lines|
  {
    hide Classify, Apply;
    if lines != [] {
      var l := lines[0];
      assert lines == [l] + lines[1..];
      MeaningStep(r, l, lines[1..]);
      if Classify(l).Ignored? {
        ReadLinesByMeaning(r, lines[1..]);
        assert [] + Meaning(lines[1..]) == Meaning(lines[1..]);
      } else {
        ApplyAllStep(r, Classify(l), Meaning(lines[1..]));
        match Interpret(r, l)
        case Err(_) =>
        case Ok(next) => ReadLinesByMeaning(next, lines[1..]);
      }
    }
  }

  lemma BlankLine(line: string)
    requires AllCut(line, IsSpace)
    ensures Classify(line) == Ignored
  {
    TrimPadded(line, "", "", IsSpace);
    assert line + "" + "" == line;
  }

  lemma CommentLine(indent: string, comment: string)
    requires AllCut(indent, IsSpace)
    ensures Classify(indent + "#" + comment) == Ignored
  {
    assert indent + "#" + comment == indent + ("#" + comment);
    TrimLeftPadded(indent, "#" + comment, IsSpace);
    var r := TrimSpace("#" + comment);
    TrimRightKeepsHead("#" + comment);
  }

  lemma {:induction false} TrimRightKeepsHead(s: string)
    requires s != "" && !IsSpace(s[0])
    ensures TrimRight(s, IsSpace) != "" && TrimRight(s, IsSpace)[0] == s[0]
  {
    if IsSpace(s[|s| - 1]) {
      TrimRightKeepsHead(s[..|s| - 1]);
    }
  }

  lemma PaddedTrim(indent: string, line: string, trailing: string)
    requires AllCut(indent, IsSpace) && AllCut(trailing, IsSpace)
    ensures TrimSpace(indent + line + trailing) == TrimSpace(line)
  {
    hide TrimLeft, TrimRight;
    assert indent + line + trailing == indent + (line + trailing);
    TrimLeftPadded(indent, line + trailing, IsSpace);
    TrimmedTail(line, trailing);
  }

  /** Indentation and trailing white space do not change what a line says. */
  lemma PaddedLine(indent: string, line: string, trailing: string)
    requires AllCut(indent, IsSpace) && AllCut(trailing, IsSpace)
    ensures Classify(indent + line + trailing) == Classify(line)
  {
    hide Trim, IsSpace, IndexOf;
    PaddedTrim(indent, line, trailing);
  }

  /** Two catalogs whose lines say the same load alike: blank lines, comments and padding are free. */
  lemma LayoutDoesNotMatter(a: seq<string>, b: seq<string>, suite: string)
    requires SingleLines(a) && AllFit(a) && SingleLines(b) && AllFit(b)
    requires Meaning(a) == Meaning(b)
    ensures Loaded(Some(Unlines(a)), suite) == Loaded(Some(Unlines(b)), suite)
  {
    ReadTextOfLines(Interpret, START, a);
    ReadTextOfLines(Interpret, START, b);
    ReadLinesByMeaning(START, a);
    ReadLinesByMeaning(START, b);
  }

  // ----- the printer -----

  function FieldText(key: string, value: string, quote: string): string {
    "    " + key + ": " + quote + value + quote
  }

  function BoolText(b: bool): string { if b then "true" else "false" }

  datatype Field = Field(key: string, value: string)

  function TaskFields(t: Task): seq<Field> {
    [Field("version", Itoa(t.version))] + ([Field("sha256", t.digest)] + ([Field("family", t.family)]
    + LaterFields(t)))
  }

  function LaterFields(t: Task): seq<Field> {
    [Field("title", t.title)] + ([Field("level", LevelText(t.level))]
    + ([Field("dangerous", BoolText(t.dangerous))] + ([Field("description", t.description)] + [])))
  }

  function FieldLines(fields: seq<Field>, quote: string): seq<string> {
    if fields == [] then []
    else [FieldText(fields[0].key, fields[0].value, quote)] + FieldLines(fields[1..], quote)
  }

  function TaskLines(t: Task, quote: string): seq<string> {
    ["  - id: " + t.id] + FieldLines(TaskFields(t), quote)
  }

  function AllTaskLines(tasks: seq<Task>, quote: string): seq<string> {
    if tasks == [] then [] else TaskLines(tasks[0], quote) + AllTaskLines(tasks[1..], quote)
  }

  function CatalogLines(suite: string, tasks: seq<Task>, quote: string): seq<string> {
    ["suite: " + suite, "tasks:"] + AllTaskLines(tasks, quote)
  }

  /** The layout of tasks/catalog.yaml; values bare (`quote` empty) or between quote characters. */
  function Render(suite: string, tasks: seq<Task>, quote: string): string {
    Unlines(CatalogLines(suite, tasks, quote))
  }

  /** A value that can stand in a catalog: one line, no quote at either end and, when written bare, no white space
      at either end. Colons and everything else inside are free. */
  ghost predicate Writable(value: string, quote: string) {
    '\n' !in value && Trimmed(value, IsQuote) && (quote == "" ==> Trimmed(value, IsSpace))
  }

  ghost predicate WritableTask(t: Task, quote: string) {
    '\n' !in t.id && Trimmed(t.id, IsSpace) &&
    Writable(t.digest, quote) && Writable(t.family, quote) && Writable(t.title, quote) &&
    Writable(LevelText(t.level), quote) && Writable(t.description, quote)
  }

  ghost predicate WritableCatalog(suite: string, tasks: seq<Task>, quote: string) {
    '\n' !in suite && Trimmed(suite, IsSpace) && AllCut(quote, IsQuote) &&
    forall t :: t in tasks ==> WritableTask(t, quote)
  }

  // ----- what the printed lines say -----

  ghost predicate PlainKey(key: string) {
    key != "" && key != "suite" && forall c :: c in key ==> IsLower(c) || IsDigit(c) || c == '_'
  }

  lemma ClassifiedAsField(raw: string, line: string, colon: nat)
    requires line == TrimSpace(raw) && line != "" && line[0] != '#' && line[0] != '-' && !("suite:" <= line)
    requires IndexOf(line, ':') == colon && colon < |line|
    ensures Classify(raw) == FieldLine(TrimSpace(line[..colon]), Trim(TrimSpace(line[colon + 1..]), IsQuote))
  {
    hide Trim, TrimSpace, IndexOf;
    assert "- id:"[0] == '-';
  }

  lemma KeyTrimmed(key: string)
    requires PlainKey(key)
    ensures TrimSpace(key) == key && key[0] != '#' && key[0] != '-' && ':' !in key
  {
    assert key[0] in key && key[|key| - 1] in key;
    TrimPadded("", key, "", IsSpace);
    assert "" + key + "" == key;
  }

  /** A line `key:rest`, already trimmed, is a field. */
  lemma KeyedLine(raw: string, key: string, rest: string)
    requires PlainKey(key) && TrimSpace(raw) == key + ":" + rest
    ensures Classify(raw) == FieldLine(key, Trim(TrimSpace(rest), IsQuote))
  {
    hide Classify, Trim, IndexOf, IsSpace;
    var line := key + ":" + rest;
    KeyTrimmed(key);
    assert line[0] == key[0];
    IndexOfFirst(key, ':', rest);
    NotSuite(key, rest);
    assert line[..|key|] == key && line[|key| + 1..] == rest;
    ClassifiedAsField(raw, line, |key|);
  }

  lemma NotSuite(key: string, rest: string)
    requires PlainKey(key)
    ensures !("suite:" <= key + ":" + rest)
  {
    var line := key + ":" + rest;
    assert line[..|key|] == key && line[|key|] == ':';
    if |key| == 5 {
      var i :| 0 <= i < 5 && key[i] != "suite"[i];
      assert line[i] == key[i] && "suite:"[i] == "suite"[i];
    } else if |key| > 5 {
      assert key[5] in key && line[5] == key[5];
    } else {
      assert "suite:"[|key|] != ':';
    }
  }

  lemma WrittenTrimmed(value: string, quote: string)
    requires AllCut(quote, IsQuote) && Writable(value, quote)
    ensures Trimmed(quote + value + quote, IsSpace)
  {
    if quote != "" {
      assert quote[0] in quote && quote[|quote| - 1] in quote;
    } else {
      assert quote + value + quote == value;
    }
  }

  lemma EmptyFieldSays(key: string)
    requires PlainKey(key)
    ensures Classify("    " + key + ": ") == FieldLine(key, "")
  {
    assert key[0] in key;
    assert "    " + key + ": " == "    " + (key + ":") + " ";
    TrimPadded("    ", key + ":", " ", IsSpace);
    assert key + ":" == key + ":" + "";
    KeyedLine("    " + key + ": ", key, "");
  }

  lemma FilledFieldSays(key: string, written: string)
    requires PlainKey(key) && written != "" && Trimmed(written, IsSpace)
    ensures Classify("    " + key + ": " + written) == FieldLine(key, Trim(written, IsQuote))
  {
    assert key[0] in key;
    var rest := " " + written;
    var raw := "    " + key + ": " + written;
    assert raw == "    " + (key + ":" + rest) + "";
    TrimPadded("    ", key + ":" + rest, "", IsSpace);
    TrimPadded(" ", written, "", IsSpace);
    assert " " + written + "" == rest;
    KeyedLine(raw, key, rest);
  }

  lemma FieldTextSays(key: string, value: string, quote: string)
    requires PlainKey(key) && AllCut(quote, IsQuote) && Writable(value, quote)
    ensures Classify(FieldText(key, value, quote)) == FieldLine(key, value)
  {
    var written := quote + value + quote;
    WrittenTrimmed(value, quote);
    TrimPadded(quote, value, quote, IsQuote);
    if written == "" {
      assert FieldText(key, value, quote) == "    " + key + ": ";
      EmptyFieldSays(key);
    } else {
      assert FieldText(key, value, quote) == "    " + key + ": " + written;
      FilledFieldSays(key, written);
    }
  }

  lemma TaskLineBy(raw: string, rest: string)
    requires TrimSpace(raw) == "- id:" + rest
    ensures Classify(raw) == TaskLine(TrimSpace(rest))
  {
    var line := "- id:" + rest;
    assert line[5..] == rest && "- id:" <= line;
    assert line[0] == '-' && !("suite:" <= line);
  }

  lemma SuiteLineBy(raw: string, rest: string)
    requires TrimSpace(raw) == "suite:" + rest
    ensures Classify(raw) == SuiteLine(TrimSpace(rest))
  {
    var line := "suite:" + rest;
    assert line[6..] == rest && "suite:" <= line && line[0] == 's';
  }

  /** Behind a head that ends in no white space, a name is separated by one blank, which trimming removes. */
  lemma HeadAndName(indent: string, head: string, name: string) returns (rest: string)
    requires AllCut(indent, IsSpace) && head != "" && Trimmed(head, IsSpace) && Trimmed(name, IsSpace)
    ensures TrimSpace(indent + head + " " + name) == head + rest && TrimSpace(rest) == name
  {
    var raw := indent + head + " " + name;
    if name == "" {
      rest := "";
      assert raw == indent + head + " " && head + "" == head;
      TrimPadded(indent, head, " ", IsSpace);
    } else {
      rest := " " + name;
      assert raw == indent + (head + rest) + "";
      TrimPadded(indent, head + rest, "", IsSpace);
      assert rest == " " + name + "";
      TrimPadded(" ", name, "", IsSpace);
    }
  }

  lemma TaskLineSays(id: string)
    requires Trimmed(id, IsSpace)
    ensures Classify("  - id: " + id) == TaskLine(id)
  {
    var rest := HeadAndName("  ", "- id:", id);
    assert "  - id: " + id == "  " + "- id:" + " " + id;
    TaskLineBy("  - id: " + id, rest);
  }

  lemma SuiteLineSays(suite: string)
    requires Trimmed(suite, IsSpace)
    ensures Classify("suite: " + suite) == SuiteLine(suite)
  {
    var rest := HeadAndName("", "suite:", suite);
    assert "suite: " + suite == "" + "suite:" + " " + suite;
    SuiteLineBy("suite: " + suite, rest);
  }

  lemma TasksLineSays()
    ensures Classify("tasks:") == FieldLine("tasks", "")
  {
    assert "tasks:" == "" + "tasks:" + "";
    TrimPadded("", "tasks:", "", IsSpace);
    assert "tasks:" == "tasks" + ":" + "";
    KeyedLine("tasks:", "tasks", "");
  }

  // ----- the round trip -----

  ghost predicate PlainFields(fields: seq<Field>, quote: string) {
    forall f :: f in fields ==> PlainKey(f.key) && Writable(f.value, quote)
  }

  lemma DigitsWritable(s: string, quote: string)
    requires s != "" && forall c :: c in s ==> IsDigit(c) || c == '-'
    ensures Writable(s, quote)
  {
    assert s[0] in s && s[|s| - 1] in s;
  }

  lemma PlainFieldsStep(key: string, value: string, rest: seq<Field>, quote: string)
    requires PlainKey(key) && Writable(value, quote) && PlainFields(rest, quote)
    ensures PlainFields([Field(key, value)] + rest, quote)
  {
  }

  lemma KeysPlain()
    ensures PlainKey("version") && PlainKey("sha256") && PlainKey("family") && PlainKey("title")
    ensures PlainKey("level") && PlainKey("dangerous") && PlainKey("description")
  {
    assert "title"[0] != "suite"[0] && "level"[0] != "suite"[0];
  }

  lemma LaterFieldsPlain(t: Task, quote: string)
    requires WritableTask(t, quote)
    ensures PlainFields(LaterFields(t), quote)
  {
    KeysPlain();
    assert Writable(BoolText(t.dangerous), quote);
    var f7 := [Field("description", t.description)] + [];
    var f6 := [Field("dangerous", BoolText(t.dangerous))] + f7;
    var f5 := [Field("level", LevelText(t.level))] + f6;
    PlainFieldsStep("description", t.description, [], quote);
    PlainFieldsStep("dangerous", BoolText(t.dangerous), f7, quote);
    PlainFieldsStep("level", LevelText(t.level), f6, quote);
    PlainFieldsStep("title", t.title, f5, quote);
  }

  lemma TaskFieldsPlain(t: Task, quote: string)
    requires WritableTask(t, quote)
    ensures PlainFields(TaskFields(t), quote)
  {
    DigitsWritable(Itoa(t.version), quote);
    KeysPlain();
    LaterFieldsPlain(t, quote);
    var f3 := [Field("family", t.family)] + LaterFields(t);
    var f2 := [Field("sha256", t.digest)] + f3;
    PlainFieldsStep("family", t.family, LaterFields(t), quote);
    PlainFieldsStep("sha256", t.digest, f3, quote);
    PlainFieldsStep("version", Itoa(t.version), f2, quote);
  }

  function FoldFields(task: Task, fields: seq<Field>): Result<Task, LoadError>
    decreases |fields|
  {
    if fields == [] then Ok(task)
    else match SetField(task, fields[0].key, fields[0].value)
      case Err(error) => Err(error)
      case Ok(changed) => FoldFields(changed, fields[1..])
  }

  lemma FoldFieldsStep(task: Task, key: string, value: string, rest: seq<Field>)
    requires SetField(task, key, value).Ok?
    ensures FoldFields(task, [Field(key, value)] + rest) == FoldFields(SetField(task, key, value).value, rest)
  {
    assert ([Field(key, value)] + rest)[1..] == rest;
  }

  lemma SetFieldEffects(t: Task, value: string)
    ensures SetField(t, "sha256", value) == Ok(t.(digest := value))
    ensures SetField(t, "family", value) == Ok(t.(family := value))
    ensures SetField(t, "title", value) == Ok(t.(title := value))
    ensures SetField(t, "description", value) == Ok(t.(description := value))
  {
  }

  lemma SetTypedFieldEffects(t: Task, version: Int64, level: Level, dangerous: bool)
    ensures SetField(t, "version", Itoa(version)) == Ok(t.(version := version))
    ensures SetField(t, "level", LevelText(level)) == Ok(t.(level := level))
    ensures SetField(t, "dangerous", BoolText(dangerous)) == Ok(t.(dangerous := dangerous))
  {
    AtoiItoa(version);
  }

  /** The seven fields of a task, written in turn to a blank one, make the task. */
  lemma FieldsMakeTask(t: Task)
    ensures FoldFields(NewTask(t.id), TaskFields(t)) == Ok(t)
  {
    hide SetField, Itoa, LevelText, BoolText;
    var f7 := [Field("description", t.description)] + [];
    var f6 := [Field("dangerous", BoolText(t.dangerous))] + f7;
    var f5 := [Field("level", LevelText(t.level))] + f6;
    var f4 := [Field("title", t.title)] + f5;
    var f3 := [Field("family", t.family)] + f4;
    var f2 := [Field("sha256", t.digest)] + f3;
    var t1 := NewTask(t.id).(version := t.version);
    var t2 := t1.(digest := t.digest);
    var t3 := t2.(family := t.family);
    var t4 := t3.(title := t.title);
    var t5 := t4.(level := t.level);
    var t6 := t5.(dangerous := t.dangerous);
    SetTypedFieldEffects(NewTask(t.id), t.version, t.level, t.dangerous);
    SetFieldEffects(t1, t.digest);
    SetFieldEffects(t2, t.family);
    SetFieldEffects(t3, t.title);
    SetTypedFieldEffects(t4, t.version, t.level, t.dangerous);
    SetTypedFieldEffects(t5, t.version, t.level, t.dangerous);
    SetFieldEffects(t6, t.description);
    FoldFieldsStep(NewTask(t.id), "version", Itoa(t.version), f2);
    FoldFieldsStep(t1, "sha256", t.digest, f3);
    FoldFieldsStep(t2, "family", t.family, f4);
    FoldFieldsStep(t3, "title", t.title, f5);
    FoldFieldsStep(t4, "level", LevelText(t.level), f6);
    FoldFieldsStep(t5, "dangerous", BoolText(t.dangerous), f7);
    FoldFieldsStep(t6, "description", t.description, []);
  }

  lemma {:induction false} FieldLinesApplied(r: Reading, task: Task, fields: seq<Field>, quote: string)
    requires r.current == Some(task) && AllCut(quote, IsQuote) && PlainFields(fields, quote)
    requires FoldFields(task, fields).Ok?
    ensures ApplyAll(r, Meaning(FieldLines(fields, quote)))
         == Ok(r.(current := Some(FoldFields(task, fields).value)))
    decreases |fields|
  {
    hide Classify, FieldText;
    if fields != [] {
      var f, rest := fields[0], FieldLines(fields[1..], quote);
      assert f in fields && forall g :: g in fields[1..] ==> g in fields;
      FieldTextSays(f.key, f.value, quote);
      MeaningStep(r, FieldText(f.key, f.value, quote), rest);
      ApplyAllStep(r, FieldLine(f.key, f.value), Meaning(rest));
      var changed := SetField(task, f.key, f.value).value;
      FieldLinesApplied(r.(current := Some(changed)), changed, fields[1..], quote);
    }
  }

  /** The eight lines of a task set its eight fields. */
  lemma TaskLinesApplied(r: Reading, t: Task, quote: string)
    requires AllCut(quote, IsQuote) && WritableTask(t, quote)
    ensures ApplyAll(r, Meaning(TaskLines(t, quote))) == Ok(Reading(Flushed(r), Some(t), r.declared))
  {
    var next := Reading(Flushed(r), Some(NewTask(t.id)), r.declared);
    var rest := FieldLines(TaskFields(t), quote);
    TaskLineSays(t.id);
    MeaningStep(r, "  - id: " + t.id, rest);
    ApplyAllStep(r, TaskLine(t.id), Meaning(rest));
    TaskFieldsPlain(t, quote);
    FieldsMakeTask(t);
    FieldLinesApplied(next, NewTask(t.id), TaskFields(t), quote);
  }

  lemma {:induction false} MeaningConcat(a: seq<string>, b: seq<string>)
    ensures Meaning(a + b) == Meaning(a) + Meaning(b)
  {
    hide Classify;
    if a == [] {
      assert a + b == b;
    } else {
      assert (a + b)[1..] == a[1..] + b;
      MeaningConcat(a[1..], b);
    }
  }

  lemma {:induction false} ApplyAllConcat(r: Reading, a: seq<Line>, b: seq<Line>)
    ensures ApplyAll(r, a + b) == if ApplyAll(r, a).Ok? then ApplyAll(ApplyAll(r, a).value, b) else ApplyAll(r, a)
    decreases |a|
  {
    if a == [] {
      assert a + b == b;
    } else {
      assert (a + b)[1..] == a[1..] + b;
      if Apply(r, a[0]).Ok? {
        ApplyAllConcat(Apply(r, a[0]).value, a[1..], b);
      }
    }
  }

  lemma OneTaskApplied(r: Reading, t: Task, rest: seq<string>, quote: string)
    requires AllCut(quote, IsQuote) && WritableTask(t, quote)
    ensures ApplyAll(r, Meaning(TaskLines(t, quote) + rest))
         == ApplyAll(Reading(Flushed(r), Some(t), r.declared), Meaning(rest))
  {
    MeaningConcat(TaskLines(t, quote), rest);
    ApplyAllConcat(r, Meaning(TaskLines(t, quote)), Meaning(rest));
    TaskLinesApplied(r, t, quote);
  }

  function FoldTasks(r: Reading, tasks: seq<Task>): Reading
    decreases |tasks|
  {
    if tasks == [] then r else FoldTasks(Reading(Flushed(r), Some(tasks[0]), r.declared), tasks[1..])
  }

  lemma {:induction false} FoldTasksFlushed(r: Reading, tasks: seq<Task>)
    ensures Flushed(FoldTasks(r, tasks)) == Flushed(r) + tasks
    ensures FoldTasks(r, tasks).declared == r.declared
    decreases |tasks|
  {
    if tasks != [] {
      FoldTasksFlushed(Reading(Flushed(r), Some(tasks[0]), r.declared), tasks[1..]);
      assert Flushed(r) + [tasks[0]] + tasks[1..] == Flushed(r) + tasks;
    } else {
      assert Flushed(r) + [] == Flushed(r);
    }
  }

  lemma {:induction false} AllTasksApplied(r: Reading, tasks: seq<Task>, quote: string)
    requires AllCut(quote, IsQuote) && forall t :: t in tasks ==> WritableTask(t, quote)
    ensures ApplyAll(r, Meaning(AllTaskLines(tasks, quote))) == Ok(FoldTasks(r, tasks))
    decreases |tasks|
  {
    hide Classify, TaskLines, Apply;
    if tasks != [] {
      var t := tasks[0];
      assert t in tasks && forall u :: u in tasks[1..] ==> u in tasks;
      OneTaskApplied(r, t, AllTaskLines(tasks[1..], quote), quote);
      AllTasksApplied(Reading(Flushed(r), Some(t), r.declared), tasks[1..], quote);
    }
  }

  lemma CatalogMeaning(suite: string, tasks: seq<Task>, quote: string)
    requires WritableCatalog(suite, tasks, quote)
    ensures ApplyAll(START, Meaning(CatalogLines(suite, tasks, quote)))
         == Ok(FoldTasks(START.(declared := suite), tasks))
  {
    hide Classify, AllTaskLines, FoldTasks;
    var body := AllTaskLines(tasks, quote);
    var r := START.(declared := suite);
    SuiteLineSays(suite);
    TasksLineSays();
    assert CatalogLines(suite, tasks, quote) == ["suite: " + suite] + (["tasks:"] + body);
    MeaningStep(START, "suite: " + suite, ["tasks:"] + body);
    MeaningStep(r, "tasks:", body);
    ApplyAllStep(START, SuiteLine(suite), Meaning(["tasks:"] + body));
    ApplyAllStep(r, FieldLine("tasks", ""), Meaning(body));
    AllTasksApplied(r, tasks, quote);
  }

  /** What loading should give for a catalog that declares `suite` and lists `tasks`. */
  function Expected(suite: string, tasks: seq<Task>, requested: string): Result<seq<Task>, LoadError> {
    if !SuiteAvailable(requested, suite) then Err(SuiteUnavailable(requested, suite))
    else if tasks == [] then Err(NoTasks)
    else Ok(tasks)
  }

  /** Any text whose lines say what the printed catalog says, with comments, blank lines and other indentation at
      will, loads as exactly the printed tasks. */
  lemma RoundTripAnyLayout(suite: string, tasks: seq<Task>, quote: string, lines: seq<string>, requested: string)
    requires WritableCatalog(suite, tasks, quote)
    requires SingleLines(lines) && AllFit(lines) && Meaning(lines) == Meaning(CatalogLines(suite, tasks, quote))
    ensures Loaded(Some(Unlines(lines)), requested) == Expected(suite, tasks, requested)
  {
    ReadTextOfLines(Interpret, START, lines);
    ReadLinesByMeaning(START, lines);
    CatalogMeaning(suite, tasks, quote);
    FoldTasksFlushed(START.(declared := suite), tasks);
    assert [] + tasks == tasks;
  }

  lemma {:induction false} FieldLinesSingle(fields: seq<Field>, quote: string)
    requires AllCut(quote, IsQuote) && PlainFields(fields, quote)
    ensures SingleLines(FieldLines(fields, quote))
  {
    if fields != [] {
      var f := fields[0];
      assert f in fields && forall g :: g in fields[1..] ==> g in fields;
      FieldLinesSingle(fields[1..], quote);
      assert '\n' !in FieldText(f.key, f.value, quote);
    }
  }

  lemma {:induction false} TaskLinesSingle(tasks: seq<Task>, quote: string)
    requires AllCut(quote, IsQuote) && forall t :: t in tasks ==> WritableTask(t, quote)
    ensures SingleLines(AllTaskLines(tasks, quote))
  {
    if tasks != [] {
      var t := tasks[0];
      assert t in tasks && forall u :: u in tasks[1..] ==> u in tasks;
      TaskFieldsPlain(t, quote);
      FieldLinesSingle(TaskFields(t), quote);
      TaskLinesSingle(tasks[1..], quote);
    }
  }

  lemma CatalogLinesSingle(suite: string, tasks: seq<Task>, quote: string)
    requires WritableCatalog(suite, tasks, quote)
    ensures SingleLines(CatalogLines(suite, tasks, quote))
  {
    TaskLinesSingle(tasks, quote);
  }

  /** Printing and loading gives the tasks back exactly when every printed line fits the scanner. */
  lemma RoundTrip(suite: string, tasks: seq<Task>, quote: string, requested: string)
    requires WritableCatalog(suite, tasks, quote) && SuiteAvailable(requested, suite) && tasks != []
    ensures Loaded(Some(Render(suite, tasks, quote)), requested) == Ok(tasks)
       <==> AllFit(CatalogLines(suite, tasks, quote))
  {
    hide Classify, Interpret, CatalogLines, WritableCatalog, ReadText, ReadLines, Meaning;
    var lines := CatalogLines(suite, tasks, quote);
    CatalogLinesSingle(suite, tasks, quote);
    if AllFit(lines) {
      RoundTripAnyLayout(suite, tasks, quote, lines, requested);
    } else {
      ReadTextOfLines(Interpret, START, lines);
    }
  }
}
