/** The frame of a run: what ends it before its first task, which SUT its result describes, and what the result carries
    besides (internal/runner/runner.go, internal/sut/adapter.go). */
module RunStages {
  import opened Base
  import opened Text
  import opened Redaction
  import opened Identifiers
  import opened Model
  import opened CatalogFile
  import opened CatalogCheck
  import opened Adapter
  import opened Runner
  import opened RunFacts

  // ----- what ends a run before its first task -----

  /** Why the SUT cannot be described: the engine's version, its information or the image, in this order. */
  function DescribeError(image: string, w: DescribeWorld): Option<string> {
    if w.version.Err? then Some(w.version.error)
    else if w.info.Err? then Some("docker info: " + w.info.error)
    else if w.image.Err? then Some("docker image inspect " + image + ": " + w.image.error)
    else if TrimSpace(w.image.value) == "" then Some("docker image inspect " + image + " returned an empty digest")
    else None
  }

  /** What stands in the way of a real run behind the catalog: the host, the adapter, the description, the sink. */
  function RealObstacle(options: Options, world: World): Option<RunError> {
    if !world.linux then Some(NotLinux)
    else if world.adapterFault.Some? then Some(NoAdapter(world.adapterFault.value))
    else if options.image == "" then
      Some(NoAdapter("a preloaded image is required; " + "refusing implicit registry pulls"))
    else if DescribeError(options.image, world.describe).Some? then
      Some(NotDescribed(DescribeError(options.image, world.describe).value))
    else if world.sinkFault.Some? then Some(NoSink(world.sinkFault.value))
    else None
  }

  /** What stands in the way of a run: its catalog, its SUT, and for a real one the surroundings. */
  ghost function Obstacle(options: Options, root: Root, hash: Hash, world: World): Option<RunError> {
    var loaded := Loaded(root.catalog, options.suite);
    if loaded.Err? then Some(NotLoadable(loaded.error))
    else if !ValidCatalog(root, loaded.value, hash) then Some(InvalidCatalog)
    else if options.sut !in {"docker", "docker-runc", "gvisor"} then Some(UnknownSut(options.sut))
    else if options.dryRun then None
    else RealObstacle(options, world)
  }

  lemma DescribeErrorIff(product: string, image: string, w: DescribeWorld, hash: Hash)
    ensures Described(product, image, w, hash).Err? <==> DescribeError(image, w).Some?
    ensures DescribeError(image, w).Some? ==>
      Described(product, image, w, hash) == Err(DescribeError(image, w).value)
  {
    hide TrimSpace, Utf8, HexEncode;
  }

  lemma PreparedByObstacle(options: Options, root: Root, hash: Hash, world: World)
    ensures match Obstacle(options, root, hash, world)
      case Some(error) => Prepared(options, root, hash, world).tasks == Err(error)
      case None =>
        Loaded(root.catalog, options.suite).Ok? &&
        Prepared(options, root, hash, world).tasks == Ok(Loaded(root.catalog, options.suite).value)
  {
    hide Described, DescribeError, Utf8, HexEncode, Loaded, ValidCatalog;
    DescribeErrorIff(CanonicalSut(options.sut), options.image, world.describe, hash);
  }

  /** A run with an obstacle reports it and no result; any other goes through the tasks of the loaded, valid catalog, and
      reports an error exactly when one of them is to be executed and gets no adapter. */
  lemma RunByObstacle(options: Options, root: Root, hash: Hash, world: World, e: EngineState)
    ensures var out := RunOutcome(options, root, hash, world, e);
      match Obstacle(options, root, hash, world)
      case Some(error) => out.err == Some(error) && out.result.tasks == [] && out.st.engine == e
      case None =>
        Loaded(root.catalog, options.suite) == Ok(TasksOfRun(options, root, hash, world)) &&
        ValidCatalog(root, TasksOfRun(options, root, hash, world), hash) &&
        (out.err.Some? <==>
          exists k :: 0 <= k < |TasksOfRun(options, root, hash, world)| &&
            Blocked(ConfigOf(options, world), TasksOfRun(options, root, hash, world), world.tasks, k))
  {
    hide Prepared, RunTasks, Blocked, Loaded, ValidCatalog, ScoreOf;
    PreparedByObstacle(options, root, hash, world);
    PreparedIsSound(options, root, hash, world);
    if Prepared(options, root, hash, world).tasks.Ok? {
      RunStopsIff(options, root, hash, world, e);
    }
  }

  /** A task is blocked exactly if it is let through, the run is real, and adapter or image are missing. */
  lemma BlockedIff(options: Options, world: World, tasks: seq<Task>, k: nat)
    requires k < |tasks|
    ensures Blocked(ConfigOf(options, world), tasks, world.tasks, k) <==>
      !(tasks[k].dangerous && !(world.outerVM && options.allowDangerous)) && !options.dryRun &&
      (world.tasks(k).adapterFault.Some? || options.image == "")
  {
    hide NewRunID;
  }

  // ----- what the result carries -----

  /** The SUT a run could not or need not describe. */
  function PlaceholderSut(name: string, digest: string): SutDescription {
    SutDescription(name, "unavailable", "unavailable", "0.1.0", digest, "unavailable", "unavailable", "unavailable",
                   "unknown")
  }

  /** The SUT as the engine describes it. */
  function RealSut(name: string, image: string, w: DescribeWorld, hash: Hash): SutDescription
    requires w.version.Ok? && w.info.Ok? && w.image.Ok?
  {
    var digest, info := TrimSpace(w.image.value), TrimSpace(w.info.value);
    var runtime := if name == "gvisor" then "runsc" else if info == "" then "runc" else info;
    SutDescription(name, TrimSpace(w.version.value), digest, "0.1.0",
                   HexEncode(hash(Utf8(image + "\n" + digest + "\n" + "default-allow" + "\n" + runtime))),
                   if w.kernel.Some? then TrimSpace(w.kernel.value) else "unknown", runtime, w.architecture,
                   "default-allow")
  }

  /** `docker` is another name of `docker-runc`. */
  function ProductName(sut: string): string { if sut == "docker" then "docker-runc" else sut }

  lemma RealSutIs(name: string, image: string, w: DescribeWorld, hash: Hash)
    requires DescribeError(image, w).None?
    ensures Described(name, image, w, hash) == Ok(RealSut(name, image, w, hash))
  {
    hide TrimSpace, Utf8, HexEncode;
  }

  lemma PlaceholderIs(sut: string, hash: Hash)
    ensures Unavailable(sut, hash) == PlaceholderSut(ProductName(sut), HexEncode(hash(Utf8("unavailable"))))
  {
    hide Utf8, HexEncode;
  }

  /** The description went through and is the one given. */
  ghost predicate DescribedAs(sut: SutDescription, name: string, image: string, w: DescribeWorld, hash: Hash) {
    DescribeError(image, w).None? && sut == RealSut(name, image, w, hash)
  }

  /** What an obstacle, or none, means for the description. */
  ghost predicate SutFits(obstacle: Option<RunError>, options: Options, world: World, hash: Hash, sut: SutDescription) {
    var name := ProductName(options.sut);
    if obstacle.Some? && !obstacle.value.NoSink? then
      sut == PlaceholderSut(name, HexEncode(hash(Utf8("unavailable"))))
    else if options.dryRun then
      sut == PlaceholderSut(name, HexEncode(hash(Utf8("dry-run:" + options.sut + ":" + options.suite))))
    else DescribedAs(sut, name, options.image, world.describe, hash)
  }

  lemma PreparedSutFits(options: Options, root: Root, hash: Hash, world: World)
    ensures SutFits(Obstacle(options, root, hash, world), options, world, hash,
                    Prepared(options, root, hash, world).sut)
  {
    hide Described, Unavailable, DescribeError, Utf8, HexEncode, Loaded, ValidCatalog, RealSut, PlaceholderSut;
    DescribeErrorIff(ProductName(options.sut), options.image, world.describe, hash);
    PlaceholderIs(options.sut, hash);
    PlaceholderChanged(ProductName(options.sut), HexEncode(hash(Utf8("unavailable"))),
                       HexEncode(hash(Utf8("dry-run:" + options.sut + ":" + options.suite))));
    if DescribeError(options.image, world.describe).None? {
      RealSutIs(ProductName(options.sut), options.image, world.describe, hash);
    }
  }

  /** The SUT of a result is the described one from the description on, even if the sink then fails; in a dry run it is
      marked by the names of SUT and suite, and before it is unavailable. */
  lemma SutOfRun(options: Options, root: Root, hash: Hash, world: World, e: EngineState)
    ensures SutFits(Obstacle(options, root, hash, world), options, world, hash,
                    RunOutcome(options, root, hash, world, e).result.sut)
  {
    hide Prepared, RunTasks, ScoreOf, Obstacle, SutFits;
    PreparedSutFits(options, root, hash, world);
  }

  lemma PlaceholderChanged(name: string, digest: string, other: string)
    ensures PlaceholderSut(name, digest).(configSha256 := other) == PlaceholderSut(name, other)
  {
  }

  /** Besides tasks and SUT every result, also the partial one of an early error, carries schema, run ID, suite, both
      times, the score of its tasks, and the redacted error if there is one. */
  lemma ResultCarries(options: Options, root: Root, hash: Hash, world: World, e: EngineState)
    ensures var out := RunOutcome(options, root, hash, world, e);
      out.result.schema == "https://holdout.dev/schema/result.v1.json" && out.result.runID == NewRunID(world.seed) &&
      out.result.suite == options.suite && out.result.started == world.started && out.result.ended == world.ended &&
      out.result.summary == ScoreOf(out.result.tasks) &&
      out.result.error == (if out.err.Some? then Sanitized(world.wording(out.err.value)) else "") &&
      (out.result.error == "" <==> out.err.None?)
  {
    hide Prepared, RunTasks, ScoreOf, NewRunID, Sanitized;
    var out := RunOutcome(options, root, hash, world, e);
    if out.err.Some? {
      SanitizedNonEmpty(world.wording(out.err.value));
    }
  }
}
