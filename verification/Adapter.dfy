/** The Docker adapter and the engine it drives (internal/sut/adapter.go). */
module Adapter {
  import opened Base
  import opened Text

  // ----- the engine -----

  datatype Command =
    | CreateCmd(name: string, taskDir: string)
    | StartCmd(name: string)
    | ExecCmd(name: string)
    | RemoveCmd(name: string)
    | VolumeRemoveCmd(volume: string)

  /** Containers and volumes by name, and every command the adapter ever issued. */
  datatype EngineState = EngineState(containers: set<string>, volumes: set<string>, log: seq<Command>)

  function VolumeOf(name: string): string { "holdout-workspace-" + name }

  /** How a `docker create` ends. When it reports an error (a timeout, say) it may have got anywhere. */
  datatype CreateOutcome = CreateOutcome(err: Option<ErrText>, madeContainer: bool, madeVolume: bool)

  /** How a removal ends. Without an error the thing is gone; with one it may be gone or not. */
  datatype RemoveOutcome = RemoveOutcome(err: Option<ErrText>, removed: bool)

  /** `docker create --name n -v holdout-workspace-n:/workspace`: a name in use is refused without any effect, an
      existing volume is reused. */
  function EngineCreate(e: EngineState, name: string, taskDir: string, out: CreateOutcome)
    : (EngineState, Option<ErrText>)
  {
    var logged := e.(log := e.log + [CreateCmd(name, taskDir)]);
    if name in e.containers then (logged, Some(if out.err.Some? then out.err.value else "name already in use"))
    else
      var container, volume := out.err.None? || out.madeContainer, out.err.None? || out.madeVolume;
      (logged.(containers := if container then e.containers + {name} else e.containers,
               volumes := if volume then e.volumes + {VolumeOf(name)} else e.volumes),
       out.err)
  }

  function EngineRemove(e: EngineState, name: string, out: RemoveOutcome): EngineState {
    e.(log := e.log + [RemoveCmd(name)],
       containers := if out.err.None? || out.removed then e.containers - {name} else e.containers)
  }

  function EngineRemoveVolume(e: EngineState, volume: string, out: RemoveOutcome): EngineState {
    e.(log := e.log + [VolumeRemoveCmd(volume)],
       volumes := if out.err.None? || out.removed then e.volumes - {volume} else e.volumes)
  }

  // ----- the adapter -----

  datatype Spec = Spec(name: string, taskDir: string)

  /** The fields `name` and `created`. */
  datatype AdapterState = AdapterState(name: string, created: bool)

  const IDLE := AdapterState("", false)

  /** Everything that decides how one `Create` goes: `filepath.Abs`, the commands, and the two of the clean-up. */
  datatype CreateWorld = CreateWorld(abs: Option<ErrText>, create: CreateOutcome, start: Option<ErrText>,
                                     remove: RemoveOutcome, removeVolume: RemoveOutcome)

  datatype DestroyWorld = DestroyWorld(remove: RemoveOutcome, removeVolume: RemoveOutcome)

  datatype ExecWorld = ExecWorld(exitCode: int, err: Option<ErrText>, deadline: bool)

  /** An adapter together with the engine. */
  datatype Sys = Sys(adapter: AdapterState, engine: EngineState)

  function Create(s: Sys, spec: Spec, w: CreateWorld): (Sys, Option<ErrText>) {
    if s.adapter.created || s.adapter.name != "" then (s, Some("adapter already has a container"))
    else if spec.taskDir != "" && w.abs.Some? then (s.(adapter := AdapterState(spec.name, false)), w.abs)
    else
      var (e1, err) := EngineCreate(s.engine, spec.name, spec.taskDir, w.create);
      if err.Some? then (Sys(AdapterState("", false), e1), Some("docker create: " + err.value))
      else
        var e2 := e1.(log := e1.log + [StartCmd(spec.name)]);
        if w.start.Some? then
          var e3 := EngineRemove(e2, spec.name, w.remove);
          var e4 := EngineRemoveVolume(e3, VolumeOf(spec.name), w.removeVolume);
          (Sys(AdapterState("", false), e4), Some("docker start: " + w.start.value))
        else (Sys(AdapterState(spec.name, true), e2), None)
  }

  function Exec(s: Sys, w: ExecWorld): (Sys, ExecWorld) {
    if s.adapter.name == "" then (s, ExecWorld(0, Some("adapter is not created"), false))
    else (s.(engine := s.engine.(log := s.engine.log + [ExecCmd(s.adapter.name)])), w)
  }

  function Destroy(s: Sys, w: DestroyWorld): (Sys, Option<ErrText>) {
    if s.adapter.name == "" || !s.adapter.created then (s, None)
    else
      var e1 := EngineRemove(s.engine, s.adapter.name, w.remove);
      var e2 := EngineRemoveVolume(e1, VolumeOf(s.adapter.name), w.removeVolume);
      if w.remove.err.Some? then (s.(engine := e2), w.remove.err)
      else (Sys(AdapterState("", false), e2), w.removeVolume.err)
  }

  // ----- the objects -----

  class Engine {
    var containers: set<string>
    var volumes: set<string>
    var log: seq<Command>

    ghost function Abstract(): EngineState
      reads this
    {
      EngineState(containers, volumes, log)
    }

    method RunCreate(name: string, taskDir: string, out: CreateOutcome) returns (err: Option<ErrText>)
      modifies this
      ensures (Abstract(), err) == EngineCreate(old(Abstract()), name, taskDir, out)
    {
      log := log + [CreateCmd(name, taskDir)];
      if name in containers {
        return Some(if out.err.Some? then out.err.value else "name already in use");
      }
      if out.err.None? || out.madeContainer {
        containers := containers + {name};
      }
      if out.err.None? || out.madeVolume {
        volumes := volumes + {VolumeOf(name)};
      }
      return out.err;
    }

    method RunRemove(name: string, out: RemoveOutcome) returns (err: Option<ErrText>)
      modifies this
      ensures Abstract() == EngineRemove(old(Abstract()), name, out) && err == out.err
    {
      log := log + [RemoveCmd(name)];
      if out.err.None? || out.removed {
        containers := containers - {name};
      }
      return out.err;
    }

    method RunRemoveVolume(volume: string, out: RemoveOutcome) returns (err: Option<ErrText>)
      modifies this
      ensures Abstract() == EngineRemoveVolume(old(Abstract()), volume, out) && err == out.err
    {
      log := log + [VolumeRemoveCmd(volume)];
      if out.err.None? || out.removed {
        volumes := volumes - {volume};
      }
      return out.err;
    }

    method Note(command: Command)
      modifies this
      ensures Abstract() == old(Abstract()).(log := old(log) + [command])
    {
      log := log + [command];
    }
  }

  /** `DockerAdapter`, as far as its state goes. */
  class DockerAdapter {
    var name: string
    var created: bool
    const engine: Engine

    ghost function Abstract(): Sys
      reads this, engine
    {
      Sys(AdapterState(name, created), engine.Abstract())
    }

    constructor (engine: Engine)
      ensures this.engine == engine && name == "" && !created
    {
      this.engine := engine;
      name, created := "", false;
    }

    method CreateContainer(spec: Spec, w: CreateWorld) returns (err: Option<ErrText>)
      modifies this, engine
      ensures (Abstract(), err) == Create(old(Abstract()), spec, w)
    {
      if created || name != "" {
        return Some("adapter already has a container");
      }
      name := spec.name;
      if spec.taskDir != "" && w.abs.Some? {
        return w.abs;
      }
      err := engine.RunCreate(name, spec.taskDir, w.create);
      if err.Some? {
        name := "";
        return Some("docker create: " + err.value);
      }
      created := true;
      engine.Note(StartCmd(name));
      if w.start.Some? {
        var _ := engine.RunRemove(name, w.remove);
        var _ := engine.RunRemoveVolume(VolumeOf(name), w.removeVolume);
        name := "";
        created := false;
        return Some("docker start: " + w.start.value);
      }
      return None;
    }

    method ExecCommand(w: ExecWorld) returns (result: ExecWorld)
      modifies engine
      ensures (Abstract(), result) == Exec(old(Abstract()), w)
    {
      if name == "" {
        return ExecWorld(0, Some("adapter is not created"), false);
      }
      engine.Note(ExecCmd(name));
      return w;
    }

    method DestroyContainer(w: DestroyWorld) returns (err: Option<ErrText>)
      modifies this, engine
      ensures (Abstract(), err) == Destroy(old(Abstract()), w)
    {
      if name == "" || !created {
        return None;
      }
      var containerErr := engine.RunRemove(name, w.remove);
      var volumeErr := engine.RunRemoveVolume(VolumeOf(name), w.removeVolume);
      if containerErr.Some? {
        return containerErr;
      }
      name := "";
      created := false;
      return volumeErr;
    }
  }

  // ----- every sequence of calls -----

  datatype Call = CreateCall(spec: Spec, cw: CreateWorld) | ExecCall(ew: ExecWorld) | DestroyCall(dw: DestroyWorld)

  /** The system, and the names of containers whose `Create` or `Destroy` has reported an error. */
  datatype History = History(sys: Sys, reported: set<string>)

  function CallOnce(h: History, call: Call): History {
    match call
    case CreateCall(spec, w) =>
      var (s, err) := Create(h.sys, spec, w);
      History(s, if err.Some? then h.reported + {spec.name} else h.reported)
    case ExecCall(w) => History(Exec(h.sys, w).0, h.reported)
    case DestroyCall(w) =>
      var (s, err) := Destroy(h.sys, w);
      History(s, if err.Some? then h.reported + {h.sys.adapter.name} else h.reported)
  }

  function CallAll(h: History, calls: seq<Call>): History {
    if calls == [] then h else CallOnce(CallAll(h, calls[..|calls| - 1]), calls[|calls| - 1])
  }

  /** A new adapter before an engine. */
  function Start(e: EngineState): History { History(Sys(IDLE, e), {}) }

  /** The containers the adapter is responsible for. */
  function Owned(a: AdapterState): set<string> { if a.created then {a.name} else {} }

  function VolumesOf(names: set<string>): set<string> { set n | n in names :: VolumeOf(n) }

  lemma VolumeInjective(a: string, b: string)
    ensures VolumeOf(a) == VolumeOf(b) <==> a == b
  {
    var prefix := "holdout-workspace-";
    assert VolumeOf(a)[|prefix|..] == a && VolumeOf(b)[|prefix|..] == b;
  }

  /** Whatever is new in the engine is either owned by the adapter or belongs to a call that reported an error. */
  ghost predicate Accounted(e0: EngineState, h: History) {
    (forall n :: n in h.sys.engine.containers ==>
      n in e0.containers || n in Owned(h.sys.adapter) || n in h.reported) &&
    (forall v :: v in h.sys.engine.volumes ==>
      v in e0.volumes || (exists n :: (n in Owned(h.sys.adapter) || n in h.reported) && v == VolumeOf(n)))
  }

  lemma AccountedStep(e0: EngineState, h: History, call: Call)
    requires Accounted(e0, h)
    ensures Accounted(e0, CallOnce(h, call))
  {
    var h' := CallOnce(h, call);
    forall v | v in h'.sys.engine.volumes && v !in e0.volumes
      ensures exists n :: (n in Owned(h'.sys.adapter) || n in h'.reported) && v == VolumeOf(n)
    {
      if v in h.sys.engine.volumes {
        var n :| (n in Owned(h.sys.adapter) || n in h.reported) && v == VolumeOf(n);
        assert n in Owned(h'.sys.adapter) || n in h'.reported;
      } else {
        assert call.CreateCall? && v == VolumeOf(call.spec.name);
        assert call.spec.name in Owned(h'.sys.adapter) || call.spec.name in h'.reported;
      }
    }
  }

  /** For every sequence of calls: leftovers are owned or have been reported. */
  lemma {:induction false} LeftoversAreOwnedOrReported(e: EngineState, calls: seq<Call>)
    ensures Accounted(e, CallAll(Start(e), calls))
  {
    if calls != [] {
      LeftoversAreOwnedOrReported(e, calls[..|calls| - 1]);
      AccountedStep(e, CallAll(Start(e), calls[..|calls| - 1]), calls[|calls| - 1]);
    }
  }

  function SpecName(call: Call): set<string> { if call.CreateCall? then {call.spec.name} else {} }

  function SpecNames(calls: seq<Call>): set<string> {
    if calls == [] then {} else SpecNames(calls[..|calls| - 1]) + SpecName(calls[|calls| - 1])
  }

  predicate NamedBy(command: Command, names: set<string>) {
    match command
    case VolumeRemoveCmd(volume) => volume in VolumesOf(names)
    case _ => command.name in names
  }

  /** Only containers and volumes of the given names differ, and only such are named in the commands added. */
  ghost predicate KeepsTo(e: EngineState, f: EngineState, names: set<string>) {
    (forall n :: n !in names ==> (n in e.containers <==> n in f.containers)) &&
    (forall v :: v !in VolumesOf(names) ==> (v in e.volumes <==> v in f.volumes)) &&
    |e.log| <= |f.log| && f.log[..|e.log|] == e.log &&
    (forall i :: |e.log| <= i < |f.log| ==> NamedBy(f.log[i], names))
  }

  lemma KeepsToTransitive(e: EngineState, f: EngineState, g: EngineState, some: set<string>, all: set<string>)
    requires KeepsTo(e, f, some) && KeepsTo(f, g, all) && some <= all
    ensures KeepsTo(e, g, all)
  {
    forall i | |e.log| <= i < |g.log|
      ensures NamedBy(g.log[i], all)
    {
      if i < |f.log| {
        assert g.log[i] == g.log[..|f.log|][i] == f.log[i] && NamedBy(f.log[i], some);
      }
    }
    assert g.log[..|e.log|] == g.log[..|f.log|][..|e.log|];
  }

  lemma CreateKeepsTo(s: Sys, spec: Spec, w: CreateWorld)
    ensures KeepsTo(s.engine, Create(s, spec, w).0.engine, {spec.name})
  {
    assert VolumeOf(spec.name) in VolumesOf({spec.name});
  }

  lemma ExecKeepsTo(s: Sys, w: ExecWorld)
    ensures KeepsTo(s.engine, Exec(s, w).0.engine, {s.adapter.name})
  {
  }

  lemma DestroyKeepsTo(s: Sys, w: DestroyWorld)
    ensures KeepsTo(s.engine, Destroy(s, w).0.engine, {s.adapter.name})
  {
    assert VolumeOf(s.adapter.name) in VolumesOf({s.adapter.name});
  }

  lemma NothingDone(e: EngineState, names: set<string>)
    ensures KeepsTo(e, e, names)
  {
  }

  /** No sequence of calls touches a container or volume named for anything but its own specs. */
  lemma {:induction false} CallsKeepToTheirNames(e: EngineState, calls: seq<Call>)
    ensures var s := CallAll(Start(e), calls).sys;
      KeepsTo(e, s.engine, SpecNames(calls)) && (s.adapter != IDLE ==> s.adapter.name in SpecNames(calls))
  {
    if calls == [] {
      NothingDone(e, {});
    } else {
      var n := |calls| - 1;
      CallsKeepToTheirNames(e, calls[..n]);
      var s := CallAll(Start(e), calls[..n]).sys;
      var t := CallAll(Start(e), calls).sys;
      CallStepKeepsTo(s, calls[n], SpecNames(calls[..n]));
      KeepsToTransitive(e, s.engine, t.engine, SpecNames(calls[..n]), SpecNames(calls));
    }
  }

  lemma CallStepKeepsTo(s: Sys, call: Call, names: set<string>)
    requires s.adapter != IDLE ==> s.adapter.name in names
    ensures KeepsTo(s.engine, CallOnce(History(s, {}), call).sys.engine, names + SpecName(call))
    ensures var t := CallOnce(History(s, {}), call).sys;
      t.adapter != IDLE ==> t.adapter.name in names + SpecName(call)
  {
    var all := names + SpecName(call);
    match call
    case CreateCall(spec, w) =>
      CreateKeepsTo(s, spec, w);
      MoreNames(s.engine, Create(s, spec, w).0.engine, {spec.name}, all);
    case ExecCall(w) =>
      if s.adapter != IDLE {
        ExecKeepsTo(s, w);
        MoreNames(s.engine, Exec(s, w).0.engine, {s.adapter.name}, all);
      } else {
        NothingDone(s.engine, all);
      }
    case DestroyCall(w) =>
      if s.adapter != IDLE {
        DestroyKeepsTo(s, w);
        MoreNames(s.engine, Destroy(s, w).0.engine, {s.adapter.name}, all);
      } else {
        NothingDone(s.engine, all);
      }
  }

  lemma MoreNames(e: EngineState, f: EngineState, some: set<string>, all: set<string>)
    requires KeepsTo(e, f, some) && some <= all
    ensures KeepsTo(e, f, all)
  {
    NothingDone(e, some);
    NothingDone(f, all);
    KeepsToTransitive(e, f, f, some, all);
  }

  // ----- ownership -----

  ghost predicate AbsFails(call: Call) { call.CreateCall? && call.spec.taskDir != "" && call.cw.abs.Some? }

  /** The two fields say the same. */
  predicate Settled(a: AdapterState) { a.created <==> a.name != "" }

  /** The adapter after the first `k` of the calls. */
  function AdapterAfter(e: EngineState, calls: seq<Call>, k: nat): AdapterState
    requires k <= |calls|
  {
    CallAll(Start(e), calls[..k]).sys.adapter
  }

  lemma SettledStep(h: History, call: Call)
    requires Settled(h.sys.adapter) && (call.CreateCall? ==> call.spec.name != "")
    ensures Settled(CallOnce(h, call).sys.adapter) <==> !(h.sys.adapter == IDLE && AbsFails(call))
  {
  }

  /** After every sequence of calls with non-empty names, `created` holds exactly when `name` is set, if and only if
      `filepath.Abs` never failed a `Create` on an idle adapter. */
  lemma {:induction false} CreatedIffNamed(e: EngineState, calls: seq<Call>)
    requires forall c :: c in calls && c.CreateCall? ==> c.spec.name != ""
    ensures Settled(CallAll(Start(e), calls).sys.adapter) <==>
      forall k :: 0 <= k < |calls| && AbsFails(calls[k]) ==> AdapterAfter(e, calls, k) != IDLE
  {
    hide CallOnce, AbsFails, Settled;
    if calls == [] {
      NewIsSettled();
    } else {
      var n := |calls| - 1;
      var before := calls[..n];
      var h := CallAll(Start(e), before);
      assert calls[n] in calls && forall c :: c in before ==> c in calls;
      CreatedIffNamed(e, before);
      assert forall k :: 0 <= k <= n ==> before[..k] == calls[..k];
      assert AdapterAfter(e, calls, n) == h.sys.adapter;
      assert forall k :: 0 <= k < n ==> before[k] == calls[k] && AdapterAfter(e, before, k) == AdapterAfter(e, calls, k);
      if Settled(h.sys.adapter) {
        SettledStep(h, calls[n]);
      } else {
        UnsettledStays(h, calls[n]);
      }
    }
  }

  lemma NewIsSettled()
    ensures Settled(IDLE)
  {
  }

  lemma UnsettledStays(h: History, call: Call)
    requires !Settled(h.sys.adapter)
    ensures CallOnce(h, call).sys.adapter == h.sys.adapter
  {
  }

  /** A `Create` that reports no error was issued for a free name; it has made container and volume, started the
      container, and the adapter owns it. */
  lemma SuccessfulCreateOwns(e: EngineState, spec: Spec, w: CreateWorld)
    requires Create(Sys(IDLE, e), spec, w).1.None?
    ensures var s := Create(Sys(IDLE, e), spec, w).0;
      spec.name !in e.containers && s.engine.containers == e.containers + {spec.name} &&
      s.engine.volumes == e.volumes + {VolumeOf(spec.name)} && s.adapter == AdapterState(spec.name, true) &&
      s.engine.log == e.log + [CreateCmd(spec.name, spec.taskDir), StartCmd(spec.name)]
  {
  }

  /** When the container was made but does not start, both removals are attempted before the error is reported. */
  lemma FailedStartCleansUp(e: EngineState, spec: Spec, w: CreateWorld)
    requires spec.name !in e.containers && w.abs.None? && w.create.err.None? && w.start.Some?
    ensures var (s, err) := Create(Sys(IDLE, e), spec, w);
      err.Some? && s.adapter == IDLE &&
      s.engine.log == e.log + [CreateCmd(spec.name, spec.taskDir), StartCmd(spec.name), RemoveCmd(spec.name),
                               VolumeRemoveCmd(VolumeOf(spec.name))] &&
      (w.remove.err.None? ==> s.engine.containers == e.containers) &&
      (w.removeVolume.err.None? ==> s.engine.volumes == e.volumes - {VolumeOf(spec.name)})
  {
    assert [CreateCmd(spec.name, spec.taskDir), StartCmd(spec.name), RemoveCmd(spec.name),
            VolumeRemoveCmd(VolumeOf(spec.name))]
        == [CreateCmd(spec.name, spec.taskDir)] + [StartCmd(spec.name)] + [RemoveCmd(spec.name)]
           + [VolumeRemoveCmd(VolumeOf(spec.name))];
  }

  /** A `docker create` that fails makes no container, and every removal of a container succeeds. */
  ghost predicate Tidy(call: Call) {
    match call
    case CreateCall(_, w) => (w.create.err.Some? ==> !w.create.madeContainer) && w.remove.err.None?
    case ExecCall(_) => true
    case DestroyCall(w) => w.remove.err.None?
  }

  lemma TidyStep(e: EngineState, h: History, call: Call)
    requires Tidy(call) && Owned(h.sys.adapter) !! e.containers
    requires h.sys.engine.containers == e.containers + Owned(h.sys.adapter)
    ensures var s := CallOnce(h, call).sys;
      Owned(s.adapter) !! e.containers && s.engine.containers == e.containers + Owned(s.adapter)
  {
    if call.CreateCall? && h.sys.adapter == IDLE {
      var spec, w := call.spec, call.cw;
      if Create(h.sys, spec, w).1.None? {
        SuccessfulCreateOwns(h.sys.engine, spec, w);
      } else if spec.name !in h.sys.engine.containers && w.abs.None? && w.create.err.None? {
        FailedStartCleansUp(h.sys.engine, spec, w);
      }
    }
  }

  /** After every sequence of such calls, whatever else fails in it, the containers are those there were before and the
      one the adapter owns, which is new. */
  lemma {:induction false} TidyCallsConserve(e: EngineState, calls: seq<Call>)
    requires forall c :: c in calls ==> Tidy(c)
    ensures var s := CallAll(Start(e), calls).sys;
      Owned(s.adapter) !! e.containers && s.engine.containers == e.containers + Owned(s.adapter)
  {
    hide CallOnce, Tidy;
    if calls != [] {
      var n := |calls| - 1;
      assert calls[n] in calls && forall c :: c in calls[..n] ==> c in calls;
      TidyCallsConserve(e, calls[..n]);
      TidyStep(e, CallAll(Start(e), calls[..n]), calls[n]);
    }
  }

  /** A failed `Create`, on whatever adapter, owns nothing new; it leaves the adapter as it was exactly when it was not
      `filepath.Abs` that failed an idle one. After that the adapter stays stuck: it owns nothing and can neither create
      nor destroy. */
  lemma FailedCreateKeepsAdapterIff(s: Sys, spec: Spec, w: CreateWorld)
    requires Settled(s.adapter) && spec.name != "" && Create(s, spec, w).1.Some?
    ensures var a := Create(s, spec, w).0.adapter;
      a.created == s.adapter.created && (a == s.adapter <==> !(s.adapter == IDLE && AbsFails(CreateCall(spec, w))))
  {
  }

  lemma {:induction false} StuckAfterAbs(h: History, calls: seq<Call>)
    requires !h.sys.adapter.created && h.sys.adapter.name != ""
    ensures var s := CallAll(h, calls).sys;
      s.adapter == h.sys.adapter && s.engine.containers == h.sys.engine.containers &&
      s.engine.volumes == h.sys.engine.volumes
  {
    if calls != [] {
      StuckAfterAbs(h, calls[..|calls| - 1]);
    }
  }

  /** `Destroy` of an owned container: a failed removal keeps ownership so that it can be retried; after a completed
      one the container is gone and further calls do nothing. */
  lemma DestroyRetry(s: Sys, w: DestroyWorld, again: DestroyWorld)
    requires s.adapter.created && s.adapter.name != ""
    ensures var (t, err) := Destroy(s, w);
      (w.remove.err.Some? ==> t.adapter == s.adapter && err == w.remove.err) &&
      (w.remove.err.None? ==> t.adapter == IDLE && err == w.removeVolume.err) &&
      (w.remove.err.None? ==> s.adapter.name !in t.engine.containers && Destroy(t, again) == (t, None))
  {
  }

  function DestroyAll(s: Sys, ws: seq<DestroyWorld>): Sys
    decreases |ws|
  {
    if ws == [] then s else DestroyAll(Destroy(s, ws[0]).0, ws[1..])
  }

  predicate SomeRemoved(ws: seq<DestroyWorld>) { exists k :: 0 <= k < |ws| && ws[k].remove.err.None? }

  /** The attempts up to the first whose container removal succeeds. */
  function Attempts(ws: seq<DestroyWorld>): nat {
    if ws == [] then 0 else if ws[0].remove.err.None? then 1 else 1 + Attempts(ws[1..])
  }

  function Removals(name: string, n: nat): seq<Command> {
    if n == 0 then [] else [RemoveCmd(name), VolumeRemoveCmd(VolumeOf(name))] + Removals(name, n - 1)
  }

  lemma {:induction false} IdleStaysIdle(s: Sys, ws: seq<DestroyWorld>)
    requires s.adapter == IDLE
    ensures DestroyAll(s, ws) == s
    decreases |ws|
  {
    if ws != [] {
      IdleStaysIdle(s, ws[1..]);
    }
  }

  lemma DestroyLogs(s: Sys, w: DestroyWorld)
    requires s.adapter.created && s.adapter.name != ""
    ensures Destroy(s, w).0.engine.log == s.engine.log + Removals(s.adapter.name, 1)
  {
  }

  /** However often a container that is owned is destroyed: ownership is kept until a removal succeeds, every attempt up
      to then issues both removals, and none is issued after it. */
  lemma {:induction false} RetriesUntilRemoved(s: Sys, ws: seq<DestroyWorld>)
    requires s.adapter.created && s.adapter.name != ""
    ensures var t := DestroyAll(s, ws);
      t.adapter == (if SomeRemoved(ws) then IDLE else s.adapter) &&
      (SomeRemoved(ws) ==> s.adapter.name !in t.engine.containers) &&
      t.engine.log == s.engine.log + Removals(s.adapter.name, Attempts(ws))
    decreases |ws|
  {
    hide Destroy;
    if ws != [] {
      var t := Destroy(s, ws[0]).0;
      DestroyRetry(s, ws[0], ws[0]);
      DestroyLogs(s, ws[0]);
      if ws[0].remove.err.None? {
        IdleStaysIdle(t, ws[1..]);
      } else {
        RetriesUntilRemoved(t, ws[1..]);
        RemovalsMore(s.engine.log, s.adapter.name, Attempts(ws[1..]));
        assert forall k :: 0 <= k < |ws[1..]| ==> ws[1..][k] == ws[k + 1];
        assert SomeRemoved(ws) <==> SomeRemoved(ws[1..]) by {
          if k :| 0 <= k < |ws| && ws[k].remove.err.None? {
            assert ws[1..][k - 1] == ws[k];
          }
        }
      }
    }
  }

  lemma RemovalsMore(log: seq<Command>, name: string, n: nat)
    ensures log + Removals(name, 1) + Removals(name, n) == log + Removals(name, n + 1)
  {
    assert Removals(name, 0) == [];
  }

  // ----- resources that were there before -----

  /** `Create` followed by `Destroy`, with every command succeeding. */
  function CleanCycle(e: EngineState, spec: Spec): EngineState {
    var ok := RemoveOutcome(None, true);
    var s := Create(Sys(IDLE, e), spec, CreateWorld(None, CreateOutcome(None, true, true), None, ok, ok)).0;
    Destroy(s, DestroyWorld(ok, ok)).0.engine
  }

  /** A clean cycle gives the engine back as it was exactly when the container name was taken, which is refused, or
      the volume name was free: an older volume of that name is reused and then removed, although the
      documented lifecycle neither reuses nor removes resources of the same name. */
  lemma CleanCycleConservesIff(e: EngineState, spec: Spec)
    requires spec.name != ""
    ensures CleanCycle(e, spec).containers == e.containers
    ensures CleanCycle(e, spec).volumes == e.volumes
       <==> spec.name in e.containers || VolumeOf(spec.name) !in e.volumes
  {
  }
}
