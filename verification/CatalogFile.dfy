/** The line-driven catalog parser (internal/catalog/catalog.go, `Load`). */
module CatalogFile {
  import opened Base
  import opened Text
  import opened Model

  datatype LoadError =
    | OpenFailed
    | LineTooLong
    | BadVersion(id: string, value: string)
    | SuiteUnavailable(suite: string, declared: string)
    | NoTasks

  /** Where the parser stands: finished tasks, the task being read, the declared suite. */
  datatype Reading = Reading(tasks: seq<Task>, current: Option<Task>, declared: string)

  /** What one line says. */
  datatype Line = Ignored | SuiteLine(name: string) | TaskLine(id: string) | FieldLine(key: string, value: string)

  function Classify(raw: string): Line {
    var line := TrimSpace(raw);
    if line == "" || line[0] == '#' then Ignored
    else if "suite:" <= line then SuiteLine(TrimSpace(line[6..]))
    else if "- id:" <= line then TaskLine(TrimSpace(line[5..]))
    else
      var colon := IndexOf(line, ':');
      if colon == |line| then Ignored
      else FieldLine(TrimSpace(line[..colon]), Trim(TrimSpace(line[colon + 1..]), IsQuote))
  }

  function NewTask(id: string): Task { Task(id, 0, "", "", "", OtherLevel(""), false, "") }

  function SetField(task: Task, key: string, value: string): Result<Task, LoadError> {
    if key == "family" then Ok(task.(family := value))
    else if key == "version" then
      match Atoi(value)
      case None => Err(BadVersion(task.id, value))
      case Some(version) => Ok(task.(version := version))
    else if key == "sha256" || key == "digest_sha256" then Ok(task.(digest := value))
    else if key == "title" then Ok(task.(title := value))
    else if key == "level" then Ok(task.(level := LevelOf(value)))
    else if key == "dangerous" then Ok(task.(dangerous := value == "true"))
    else if key == "description" then Ok(task.(description := value))
    else Ok(task)
  }

  function Flushed(r: Reading): seq<Task> {
    match r.current
    case None => r.tasks
    case Some(task) => r.tasks + [task]
  }

  function Apply(r: Reading, line: Line): Result<Reading, LoadError> {
    match line
    case Ignored => Ok(r)
    case SuiteLine(name) => Ok(r.(declared := name))
    case TaskLine(id) => Ok(Reading(Flushed(r), Some(NewTask(id)), r.declared))
    case FieldLine(key, value) =>
      match r.current
      case None => Ok(r)
      case Some(task) =>
        match SetField(task, key, value)
        case Err(error) => Err(error)
        case Ok(changed) => Ok(r.(current := Some(changed)))
  }

  // ----- scanning -----

  /** The buffer of `bufio.Scanner` holds lines of up to this many bytes. */
  const LONGEST_LINE := 65535

  predicate FitsScanner(line: string) { |Utf8(line)| <= LONGEST_LINE }

  function DropCR(line: string): string {
    if line != "" && line[|line| - 1] == '\r' then line[..|line| - 1] else line
  }

  function AfterLine(text: string): (rest: string)
    ensures text != "" ==> |rest| < |text|
  {
    var i := IndexOf(text, '\n');
    if i == |text| then "" else text[i + 1..]
  }

  /** A line interpreter: what one scanned line does to the state of the reading. */
  type Interpreter = (Reading, string) -> Result<Reading, LoadError>

  function Interpret(r: Reading, line: string): Result<Reading, LoadError> { Apply(r, Classify(DropCR(line))) }

  /** The scanner loop: lines of a text, one after the other, up to the first error. */
  function ReadText(step: Interpreter, r: Reading, text: string): Result<Reading, LoadError>
    decreases |text|
  {
    if text == "" then Ok(r)
    else
      var line := text[..IndexOf(text, '\n')];
      if !FitsScanner(line) then Err(LineTooLong)
      else match step(r, line)
        case Err(error) => Err(error)
        case Ok(next) => ReadText(step, next, AfterLine(text))
  }

  predicate SuiteAvailable(suite: string, declared: string) {
    declared == "" || suite == "" || suite == declared || (suite == "smoke-v0" && declared == "public-v0")
  }

  function Finish(r: Reading, suite: string): Result<seq<Task>, LoadError> {
    if !SuiteAvailable(suite, r.declared) then Err(SuiteUnavailable(suite, r.declared))
    else if Flushed(r) == [] then Err(NoTasks)
    else Ok(Flushed(r))
  }

  const START := Reading([], None, "")

  /** The meaning of a catalog text for a requested suite; `None` stands for a file that cannot be opened. */
  function Loaded(source: Option<string>, suite: string): Result<seq<Task>, LoadError> {
    match source
    case None => Err(OpenFailed)
    case Some(text) =>
      match ReadText(Interpret, START, text)
      case Err(error) => Err(error)
      case Ok(r) => Finish(r, suite)
  }

  /** `Load`: one pass over the lines, updating the task being read in place. */
  method Load(source: Option<string>, suite: string) returns (r: Result<seq<Task>, LoadError>)
    ensures r == Loaded(source, suite)
  {
    if source.None? {
      return Err(OpenFailed);
    }
    var tasks: seq<Task> := [];
    var current: Option<Task> := None;
    var declared := "";
    var rest := source.value;
    while rest != ""
      invariant ReadText(Interpret, Reading(tasks, current, declared), rest)
             == ReadText(Interpret, START, source.value)
      decreases |rest|
    {
      var line := rest[..IndexOf(rest, '\n')];
      if !FitsScanner(line) {
        return Err(LineTooLong);
      }
      rest := AfterLine(rest);
      match Classify(DropCR(line)) {
        case Ignored =>
        case SuiteLine(name) => declared := name;
        case TaskLine(id) =>
          if current.Some? {
            tasks := tasks + [current.value];
          }
          current := Some(NewTask(id));
        case FieldLine(key, value) =>
          if current.Some? {
            var changed := SetField(current.value, key, value);
            if changed.Err? {
              return Err(changed.error);
            }
            current := Some(changed.value);
          }
      }
    }
    if current.Some? {
      tasks := tasks + [current.value];
    }
    if declared != "" && suite != "" && suite != declared && !(suite == "smoke-v0" && declared == "public-v0") {
      return Err(SuiteUnavailable(suite, declared));
    }
    if |tasks| == 0 {
      return Err(NoTasks);
    }
    return Ok(tasks);
  }
}
