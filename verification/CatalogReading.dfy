/** What any catalog text says, line by line: between two IDs, the last value of a key counts
    (internal/catalog/catalog.go, `Load`). */
module CatalogReading {
  import opened Base
  import opened Text
  import opened Model
  import opened CatalogFile
  import opened CatalogRoundTrip

  // ----- a reference: looking back from the end -----

  /** The last ID line. */
  function LastID(said: seq<Line>): Option<string> {
    if said == [] then None
    else
      match said[|said| - 1]
      case TaskLine(id) => Some(id)
      case _ => LastID(said[..|said| - 1])
  }

  /** The last value behind the last ID line with one of the keys. */
  function LastValue(said: seq<Line>, keys: set<string>): Option<string> {
    if said == [] then None
    else
      match said[|said| - 1]
      case TaskLine(_) => None
      case FieldLine(key, value) => if key in keys then Some(value) else LastValue(said[..|said| - 1], keys)
      case _ => LastValue(said[..|said| - 1], keys)
  }

  function OrEmpty(value: Option<string>): string { if value.Some? then value.value else "" }

  /** The suite line that counts is the last. */
  function LastSuite(said: seq<Line>): string {
    if said == [] then ""
    else
      match said[|said| - 1]
      case SuiteLine(name) => name
      case _ => LastSuite(said[..|said| - 1])
  }

  function SaidVersion(said: seq<Line>): Int64 {
    match LastValue(said, {"version"})
    case None => 0
    case Some(value) => if Atoi(value).Some? then Atoi(value).value else 0
  }

  /** The task that the lines from the last ID line on describe. */
  function SaidTask(said: seq<Line>): Task {
    Task(OrEmpty(LastID(said)), SaidVersion(said), OrEmpty(LastValue(said, {"sha256", "digest_sha256"})),
         OrEmpty(LastValue(said, {"family"})), OrEmpty(LastValue(said, {"title"})),
         LevelOf(OrEmpty(LastValue(said, {"level"}))), LastValue(said, {"dangerous"}) == Some("true"),
         OrEmpty(LastValue(said, {"description"})))
  }

  /** One task per ID line, described by the lines up to the next. */
  function SaidTasks(said: seq<Line>): seq<Task> {
    if said == [] then []
    else
      var before := SaidTasks(said[..|said| - 1]);
      match said[|said| - 1]
      case TaskLine(_) => before + [SaidTask(said)]
      case FieldLine(_, _) => if before == [] then [] else before[..|before| - 1] + [SaidTask(said)]
      case _ => before
  }

  /** Line `k` is a version within a task, and not an integer. */
  predicate BadVersionAt(said: seq<Line>, k: nat)
    requires k < |said|
  {
    said[k].FieldLine? && said[k].key == "version" && LastID(said[..k]).Some? && Atoi(said[k].value).None?
  }

  // ----- the parser does the same -----

  /** Where the parser stands after lines without a bad version. */
  function Stand(said: seq<Line>): Reading {
    var tasks := SaidTasks(said);
    if tasks == [] then Reading([], None, LastSuite(said))
    else Reading(tasks[..|tasks| - 1], Some(tasks[|tasks| - 1]), LastSuite(said))
  }

  lemma {:induction false} SaidTasksLast(said: seq<Line>)
    ensures LastID(said).Some? <==> SaidTasks(said) != []
    ensures SaidTasks(said) != [] ==> SaidTasks(said)[|SaidTasks(said)| - 1] == SaidTask(said)
  {
    if said != [] {
      SaidTasksLast(said[..|said| - 1]);
    }
  }

  lemma LastValueStep(said: seq<Line>, key: string, value: string, keys: set<string>)
    ensures LastValue(said + [FieldLine(key, value)], keys)
         == if key in keys then Some(value) else LastValue(said, keys)
    ensures LastID(said + [FieldLine(key, value)]) == LastID(said)
  {
    var longer := said + [FieldLine(key, value)];
    assert longer[..|longer| - 1] == said;
  }

  lemma FieldSaid(said: seq<Line>, key: string, value: string)
    requires key == "version" ==> Atoi(value).Some?
    ensures SetField(SaidTask(said), key, value) == Ok(SaidTask(said + [FieldLine(key, value)]))
  {
    hide Atoi, LevelOf, LastValue, LastID;
    LastValueStep(said, key, value, {"version"});
    LastValueStep(said, key, value, {"sha256", "digest_sha256"});
    LastValueStep(said, key, value, {"family"});
    LastValueStep(said, key, value, {"title"});
    LastValueStep(said, key, value, {"level"});
    LastValueStep(said, key, value, {"dangerous"});
    LastValueStep(said, key, value, {"description"});
  }

  lemma LineSaid(said: seq<Line>, line: Line)
    requires line.FieldLine? && line.key == "version" && LastID(said).Some? ==> Atoi(line.value).Some?
    ensures Apply(Stand(said), line) == Ok(Stand(said + [line]))
  {
    hide SetField, SaidTask, Atoi, LastID, LastValue;
    var longer := said + [line];
    assert longer[..|longer| - 1] == said;
    SaidTasksLast(said);
    match line
    case FieldLine(key, value) =>
      if SaidTasks(said) != [] {
        FieldSaid(said, key, value);
      }
    case TaskLine(id) =>
      NewTaskSaid(said, id);
      FlushedStand(said);
    case _ =>
  }

  lemma NewTaskSaid(said: seq<Line>, id: string)
    ensures SaidTask(said + [TaskLine(id)]) == NewTask(id)
  {
    assert LevelOf("") == OtherLevel("");
  }

  ghost predicate FirstBadVersion(said: seq<Line>, k: nat) {
    k < |said| && BadVersionAt(said, k) && forall j :: 0 <= j < k ==> !BadVersionAt(said, j)
  }

  ghost predicate NoBadVersion(said: seq<Line>) { forall k :: 0 <= k < |said| ==> !BadVersionAt(said, k) }

  lemma BadVersionPrefix(said: seq<Line>, n: nat)
    requires n <= |said|
    ensures forall k :: 0 <= k < n ==> said[..n][..k] == said[..k]
    ensures forall k :: 0 <= k < n ==> (BadVersionAt(said[..n], k) <==> BadVersionAt(said, k))
  {
    hide Atoi;
    forall k | 0 <= k < n
      ensures said[..n][..k] == said[..k] && (BadVersionAt(said[..n], k) <==> BadVersionAt(said, k))
    {
      assert said[..n][..k] == said[..k];
    }
  }

  lemma ApplyAllSnoc(r: Reading, said: seq<Line>, line: Line)
    ensures ApplyAll(r, said + [line]) ==
      if ApplyAll(r, said).Ok? then Apply(ApplyAll(r, said).value, line) else ApplyAll(r, said)
  {
    ApplyAllConcat(r, said, [line]);
    if ApplyAll(r, said).Ok? {
      ApplyAllStep(ApplyAll(r, said).value, line, []);
      assert [line] + [] == [line];
    }
  }

  /** Lines without a bad version leave the parser where looking back says ... */
  lemma {:induction false} ParserGoesOn(said: seq<Line>)
    requires NoBadVersion(said)
    ensures ApplyAll(START, said) == Ok(Stand(said))
  {
    hide SetField, SaidTask, BadVersionAt, Apply;
    if said != [] {
      var n := |said| - 1;
      assert said == said[..n] + [said[n]];
      BadVersionPrefix(said, n);
      ParserGoesOn(said[..n]);
      ApplyAllSnoc(START, said[..n], said[n]);
      NotBad(said, n);
      LineSaid(said[..n], said[n]);
    }
  }

  lemma NotBad(said: seq<Line>, n: nat)
    requires n < |said| && !BadVersionAt(said, n)
    ensures said[n].FieldLine? && said[n].key == "version" && LastID(said[..n]).Some? ==> Atoi(said[n].value).Some?
  {
  }

  /** ... and the first bad version ends it. */
  lemma {:induction false} BadVersionEnds(said: seq<Line>, k: nat)
    requires FirstBadVersion(said, k)
    ensures ApplyAll(START, said) == Err(BadVersion(LastID(said[..k]).value, said[k].value))
  {
    hide SetField, SaidTask, Apply, Stand, Atoi;
    var n := |said| - 1;
    var before := said[..n];
    assert said == before + [said[n]];
    BadVersionPrefix(said, n);
    ApplyAllSnoc(START, before, said[n]);
    if k == n {
      ParserGoesOn(before);
      BadVersionStops(before, said[n]);
    } else {
      BadVersionEnds(before, k);
    }
  }

  lemma BadVersionStops(said: seq<Line>, line: Line)
    requires line.FieldLine? && line.key == "version" && LastID(said).Some? && Atoi(line.value).None?
    ensures Apply(Stand(said), line) == Err(BadVersion(LastID(said).value, line.value))
  {
    hide Atoi;
    SaidTasksLast(said);
  }

  /** If a version is bad, one is the first. */
  lemma {:induction false} SomeFirst(said: seq<Line>) returns (k: nat)
    requires !NoBadVersion(said)
    ensures FirstBadVersion(said, k)
  {
    hide BadVersionAt;
    var n := |said| - 1;
    BadVersionPrefix(said, n);
    if NoBadVersion(said[..n]) {
      k := n;
    } else {
      k := SomeFirst(said[..n]);
    }
  }

  // ----- loading -----

  /** `declared` is no suite, or `requested` asks for none, for this one, or for the smoke tests of the public one. */
  ghost predicate SuiteFits(requested: string, declared: string) {
    declared == "" || requested == "" || requested == declared || (requested == "smoke-v0" && declared == "public-v0")
  }

  /** Every text of lines that fit the scanner loads as the tasks it says, unless a version is no integer, the declared
      suite is another one, or there is no task; these are reported in this order. */
  lemma LoadSays(lines: seq<string>, requested: string)
    requires SingleLines(lines) && forall l :: l in lines ==> |Utf8(l)| <= 65535
    ensures var said := Meaning(lines);
      (NoBadVersion(said) || exists k: nat :: FirstBadVersion(said, k)) &&
      var loaded := Loaded(Some(Unlines(lines)), requested);
      (forall k: nat :: FirstBadVersion(said, k) ==>
        loaded == Err(BadVersion(LastID(said[..k]).value, said[k].value))) &&
      (NoBadVersion(said) ==>
        if !SuiteFits(requested, LastSuite(said)) then loaded == Err(SuiteUnavailable(requested, LastSuite(said)))
        else if SaidTasks(said) == [] then loaded == Err(NoTasks)
        else loaded == Ok(SaidTasks(said)))
  {
    hide Utf8, Meaning, ReadText, ReadLines, NoBadVersion, Atoi;
    var said := Meaning(lines);
    assert AllFit(lines);
    ReadTextOfLines(Interpret, START, lines);
    ReadLinesByMeaning(START, lines);
    forall k: nat | FirstBadVersion(said, k)
      ensures ApplyAll(START, said) == Err(BadVersion(LastID(said[..k]).value, said[k].value))
    {
      BadVersionEnds(said, k);
    }
    if NoBadVersion(said) {
      ParserGoesOn(said);
    } else {
      var k := SomeFirst(said);
    }
    FlushedStand(said);
  }

  lemma FlushedStand(said: seq<Line>)
    ensures Flushed(Stand(said)) == SaidTasks(said)
  {
    var tasks := SaidTasks(said);
    assert tasks != [] ==> tasks == tasks[..|tasks| - 1] + [tasks[|tasks| - 1]];
  }

  /** A line without a colon that is no ID says nothing, also within a task. */
  lemma ColonlessLine(raw: string)
    requires ':' !in TrimSpace(raw)
    ensures Classify(raw) == Ignored
  {
    hide Trim;
    var line := TrimSpace(raw);
    assert "suite:"[5] == ':' && "- id:"[4] == ':';
    assert IndexOf(line, ':') == |line|;
  }

  /** A last line without a line feed counts like any other. */
  lemma {:induction false} UnfinishedLine(step: Interpreter, r: Reading, lines: seq<string>, last: string)
    requires SingleLines(lines) && '\n' !in last && last != ""
    requires AllFit(lines) && FitsScanner(last)
    ensures ReadText(step, r, Unlines(lines) + last) == ReadLines(step, r, lines + [last])
    decreases |lines|
  {
    if lines == [] {
      assert Unlines(lines) + last == last && last[..|last|] == last;
      assert IndexOf(last, '\n') == |last|;
      assert ([] + [last])[1..] == [];
    } else {
      var l, rest := lines[0], Unlines(lines[1..]);
      assert lines == [l] + lines[1..] && (lines + [last])[1..] == lines[1..] + [last];
      assert Unlines(lines) + last == l + "\n" + (rest + last);
      FirstLine(l, rest + last);
      match step(r, l)
      case Err(_) =>
      case Ok(next) => UnfinishedLine(step, next, lines[1..], last);
    }
  }

  // ----- printed catalogs and the requested suite -----

  /** A printed catalog loads as its tasks exactly when its lines fit the scanner and the requested suite is none, the
      declared one, or the smoke tests of the public one; for another suite it is refused. */
  lemma RenderedLoadsIff(declared: string, tasks: seq<Task>, quote: string, requested: string)
    requires quote == "" || quote == "\"" || quote == "'"
    requires WritableCatalog(declared, tasks, quote) && tasks != []
    ensures var loaded := Loaded(Some(Render(declared, tasks, quote)), requested);
      var fits := forall l :: l in CatalogLines(declared, tasks, quote) ==> |Utf8(l)| <= 65535;
      (loaded == Ok(tasks) <==>
        fits && (declared == "" || requested == "" || requested == declared ||
                 (requested == "smoke-v0" && declared == "public-v0"))) &&
      (fits && loaded != Ok(tasks) ==> loaded == Err(SuiteUnavailable(requested, declared)))
  {
    hide CatalogLines, WritableCatalog, ReadText, Meaning, Utf8, Classify;
    var lines := CatalogLines(declared, tasks, quote);
    CatalogLinesSingle(declared, tasks, quote);
    if AllFit(lines) {
      RoundTripAnyLayout(declared, tasks, quote, lines, requested);
    } else {
      ReadTextOfLines(Interpret, START, lines);
    }
  }

  /** With one or two quotes around, or none: the characters that count as quotes. */
  lemma QuotesAre(quote: string)
    requires quote == "" || quote == "\"" || quote == "'"
    ensures AllCut(quote, IsQuote)
    ensures forall s: string :: s != "" ==>
      (Trimmed(s, IsQuote) <==> s[0] != '"' && s[0] != '\'' && s[|s| - 1] != '"' && s[|s| - 1] != '\'')
  {
  }
}
