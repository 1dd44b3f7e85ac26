/** The event sink as a concurrent object (internal/sink/sink.go). A handler takes the lock twice: once to look its run
    up in the allow-list, once to append its event. Other handlers and registrations run in between. */
module Sink {
  import opened Base
  import opened Text
  import opened Identifiers

  datatype Event = Event(runID: string, path: string, size: nat, payloadSha: string)

  /** What `handleEvent` sees of a request. `broken` stands for a body that cannot be read to its end. */
  datatype Request = Request(verb: string, header: string, query: string, path: string, size: nat, sha: string,
                             broken: bool)

  const MAX_BODY := 1048576
  const EMPTY_SHA := "e3b0c44298fc1c149afbf4c8996fb92427ae41e4649b934ca495991b7852b855"

  function RunOf(req: Request): string { if req.header != "" then req.header else req.query }

  /** Everything `handleEvent` checks before it looks at the allow-list. */
  predicate WellFormed(req: Request) {
    (req.verb == "POST" || req.verb == "GET") &&
    (req.verb == "POST" ==> !req.broken && req.size <= MAX_BODY) &&
    ValidRunID(RunOf(req))
  }

  function EventOf(req: Request): Event {
    if req.verb == "POST" then Event(RunOf(req), req.path, req.size, req.sha)
    else Event(RunOf(req), req.path, 0, EMPTY_SHA)
  }

  // ----- the state machine -----

  type Thread = nat

  /** The two critical sections of one handler goroutine. */
  datatype Section = Check(thread: Thread, req: Request) | Append(thread: Thread)

  datatype Step = Register(runID: string) | Handle(section: Section)

  /** Stored events, the allow-list, and the handlers that have passed the check but not appended yet. */
  datatype State = State(events: seq<Event>, allowed: set<string>, inFlight: map<Thread, Event>)

  const EMPTY := State([], {}, map[])

  predicate Passes(s: State, req: Request) { WellFormed(req) && RunOf(req) in s.allowed }

  function Next(s: State, step: Step): State {
    match step
    case Register(runID) => if ValidRunID(runID) then s.(allowed := s.allowed + {runID}) else s
    case Handle(Check(thread, req)) =>
      if thread !in s.inFlight && Passes(s, req) then s.(inFlight := s.inFlight[thread := EventOf(req)]) else s
    case Handle(Append(thread)) =>
      if thread in s.inFlight then s.(events := s.events + [s.inFlight[thread]], inFlight := s.inFlight - {thread})
      else s
  }

  /** The state after a whole interleaving. */
  function Replay(trace: seq<Step>): State {
    if trace == [] then EMPTY else Next(Replay(trace[..|trace| - 1]), trace[|trace| - 1])
  }

  function EventsFor(events: seq<Event>, runID: string): seq<Event> {
    if events == [] then []
    else
      var rest := EventsFor(events[..|events| - 1], runID);
      if events[|events| - 1].runID == runID then rest + [events[|events| - 1]] else rest
  }

  // ----- the server object -----

  /** `Server`: the fields guarded by `mu`, and the handlers between their two critical sections. */
  class Server {
    var events: seq<Event>
    var allowedRuns: set<string>
    var inFlight: map<Thread, Event>

    ghost function Abstract(): State
      reads this
    {
      State(events, allowedRuns, inFlight)
    }

    constructor ()
      ensures Abstract() == EMPTY
    {
      events, allowedRuns, inFlight := [], {}, map[];
    }

    method RegisterRun(runID: string) returns (ok: bool)
      modifies this
      ensures ok <==> ValidRunID(runID)
      ensures Abstract() == Next(old(Abstract()), Register(runID))
    {
      if !ValidRunID(runID) {
        return false;
      }
      allowedRuns := allowedRuns + {runID};
      return true;
    }

    method RunAllowed(runID: string) returns (ok: bool)
      ensures ok <==> runID in Abstract().allowed
    {
      return runID in allowedRuns;
    }

    /** First part of `handleEvent`: true if the handler goes on to append, false if it answers with an error. */
    method CheckEvent(thread: Thread, req: Request) returns (goesOn: bool)
      requires thread !in inFlight
      modifies this
      ensures goesOn <==> Passes(old(Abstract()), req)
      ensures Abstract() == Next(old(Abstract()), Handle(Check(thread, req)))
    {
      if req.verb != "POST" && req.verb != "GET" {
        return false;
      }
      if req.verb == "POST" && (req.broken || req.size > MAX_BODY) {
        return false;
      }
      var runID := if req.header == "" then req.query else req.header;
      var allowed := RunAllowed(runID);
      if !ValidRunID(runID) || !allowed {
        return false;
      }
      inFlight := inFlight[thread := EventOf(req)];
      return true;
    }

    /** Second part: the append under the write lock. */
    method AppendEvent(thread: Thread)
      modifies this
      ensures Abstract() == Next(old(Abstract()), Handle(Append(thread)))
    {
      if thread in inFlight {
        events := events + [inFlight[thread]];
        inFlight := inFlight - {thread};
      }
    }

    method Perform(section: Section)
      modifies this
      ensures Abstract() == Next(old(Abstract()), Handle(section))
    {
      match section
      case Check(thread, req) =>
        if thread !in inFlight {
          var goesOn := CheckEvent(thread, req);
        }
      case Append(thread) => AppendEvent(thread);
    }

    /** `Events`: a copy of what was accepted for one run. */
    method Events(runID: string) returns (result: seq<Event>)
      ensures result == EventsFor(Abstract().events, runID)
    {
      result := [];
      for k := 0 to |events|
        invariant result == EventsFor(events[..k], runID)
      {
        assert events[..k + 1][..k] == events[..k];
        if events[k].runID == runID {
          result := result + [events[k]];
        }
      }
      assert events[..|events|] == events;
    }

    /** `handleRun`: the events of a run over HTTP; none for a run that is not registered. */
    method HandleRun(path: string) returns (answer: Option<seq<Event>>)
      requires "/runs/" <= path
      ensures var runID := path[6..];
        answer == if ValidRunID(runID) && runID in Abstract().allowed then Some(EventsFor(Abstract().events, runID))
                  else None
    {
      var runID := path[6..];
      var allowed := RunAllowed(runID);
      if !ValidRunID(runID) || !allowed {
        return None;
      }
      var found := Events(runID);
      return Some(found);
    }
  }

  // ----- every stored event belongs to a registered run -----

  ghost predicate RegisteredIn(trace: seq<Step>, runID: string) {
    ValidRunID(runID) && Register(runID) in trace
  }

  lemma {:induction false} AllowedIffRegistered(trace: seq<Step>, runID: string)
    ensures runID in Replay(trace).allowed <==> RegisteredIn(trace, runID)
  {
    if trace != [] {
      var n := |trace| - 1;
      assert trace == trace[..n] + [trace[n]];
      AllowedIffRegistered(trace[..n], runID);
    }
  }

  ghost predicate OnlyRegistered(s: State) {
    (forall e :: e in s.events ==> e.runID in s.allowed) &&
    (forall t :: t in s.inFlight ==> s.inFlight[t].runID in s.allowed)
  }

  /** Under every interleaving, what is stored or about to be stored belongs to a registered run: between check and
      append the allow-list can only grow. */
  lemma {:induction false} StoredRunsAreRegistered(trace: seq<Step>)
    ensures OnlyRegistered(Replay(trace))
    ensures forall e :: e in Replay(trace).events ==> RegisteredIn(trace, e.runID)
  {
    if trace != [] {
      StoredRunsAreRegistered(trace[..|trace| - 1]);
    }
    forall e | e in Replay(trace).events
      ensures RegisteredIn(trace, e.runID)
    {
      AllowedIffRegistered(trace, e.runID);
    }
  }

  // ----- non-interference -----

  /** Each handler goroutine serves one request. */
  ghost predicate OneRequestPerThread(trace: seq<Step>) {
    forall i, j :: 0 <= i < j < |trace| && IsCheck(trace[i]) && IsCheck(trace[j]) ==>
      trace[i].section.thread != trace[j].section.thread
  }

  predicate IsCheck(step: Step) { step.Handle? && step.section.Check? }

  /** The trace has the check of `thread`, and it is for run `runID`. */
  ghost predicate Serves(trace: seq<Step>, thread: Thread, runID: string) {
    exists i :: 0 <= i < |trace| && IsCheck(trace[i]) && trace[i].section.thread == thread &&
      RunOf(trace[i].section.req) == runID
  }

  /** The last step of a trace concerns `runID`. */
  ghost predicate Concerns(before: seq<Step>, step: Step, runID: string) {
    match step
    case Register(r) => r == runID
    case Handle(Check(_, req)) => RunOf(req) == runID
    case Handle(Append(thread)) => Serves(before, thread, runID)
  }

  /** The trace without all requests and registrations of other runs. */
  ghost function Project(trace: seq<Step>, runID: string): seq<Step> {
    if trace == [] then []
    else
      var n := |trace| - 1;
      Project(trace[..n], runID) + if Concerns(trace[..n], trace[n], runID) then [trace[n]] else []
  }

  lemma ServesWithout(a: seq<Step>, step: Step, b: seq<Step>, thread: Thread, runID: string)
    requires IsCheck(step) ==> RunOf(step.section.req) != runID
    ensures Serves(a + [step] + b, thread, runID) <==> Serves(a + b, thread, runID)
  {
    var longer, shorter := a + [step] + b, a + b;
    if Serves(longer, thread, runID) {
      var i :| 0 <= i < |longer| && IsCheck(longer[i]) && longer[i].section.thread == thread &&
        RunOf(longer[i].section.req) == runID;
      assert longer[i] == shorter[if i < |a| then i else i - 1];
    }
    if Serves(shorter, thread, runID) {
      var i :| 0 <= i < |shorter| && IsCheck(shorter[i]) && shorter[i].section.thread == thread &&
        RunOf(shorter[i].section.req) == runID;
      assert shorter[i] == longer[if i < |a| then i else i + 1];
    }
  }

  /** A step of another run, anywhere in a trace, leaves no mark on the projection. */
  lemma {:induction false} ForeignStepVanishes(a: seq<Step>, step: Step, b: seq<Step>, runID: string)
    requires !Concerns(a, step, runID)
    ensures Project(a + [step] + b, runID) == Project(a + b, runID)
    decreases |b|
  {
    if b == [] {
      assert a + [step] + b == a + [step] && a + b == a;
      assert (a + [step])[..|a|] == a;
    } else {
      var n := |b| - 1;
      var longer, shorter := a + [step] + b, a + b;
      assert longer[..|longer| - 1] == a + [step] + b[..n] && shorter[..|shorter| - 1] == a + b[..n];
      ForeignStepVanishes(a, step, b[..n], runID);
      if b[n].Handle? && b[n].section.Append? {
        ServesWithout(a, step, b[..n], b[n].section.thread, runID);
      }
    }
  }

  /** Two states look alike for one run. */
  ghost predicate Alike(s: State, t: State, runID: string) {
    EventsFor(s.events, runID) == EventsFor(t.events, runID) &&
    (runID in s.allowed <==> runID in t.allowed) &&
    (forall th :: th in t.inFlight ==> t.inFlight[th].runID == runID) &&
    (forall th :: th in t.inFlight <==> th in s.inFlight && s.inFlight[th].runID == runID) &&
    (forall th :: th in t.inFlight ==> t.inFlight[th] == s.inFlight[th])
  }

  lemma {:induction false} InFlightIsServed(trace: seq<Step>, thread: Thread)
    requires thread in Replay(trace).inFlight
    ensures Serves(trace, thread, Replay(trace).inFlight[thread].runID)
  {
    var n := |trace| - 1;
    var before := Replay(trace[..n]);
    if thread in before.inFlight {
      InFlightIsServed(trace[..n], thread);
      var i :| 0 <= i < n && IsCheck(trace[..n][i]) && trace[..n][i].section.thread == thread &&
        RunOf(trace[..n][i].section.req) == before.inFlight[thread].runID;
      assert IsCheck(trace[i]) && trace[i] == trace[..n][i];
    } else {
      assert IsCheck(trace[n]) && trace[n].section.thread == thread;
    }
  }

  lemma EventsForAppend(events: seq<Event>, e: Event, runID: string)
    ensures EventsFor(events + [e], runID) == EventsFor(events, runID) + if e.runID == runID then [e] else []
  {
    assert (events + [e])[..|events|] == events;
  }

  /** A step of the run itself keeps the two states alike. */
  lemma OwnStepAlike(s: State, t: State, step: Step, runID: string)
    requires Alike(s, t, runID)
    requires match step
      case Register(r) => r == runID
      case Handle(Check(thread, req)) => RunOf(req) == runID && thread !in s.inFlight
      case Handle(Append(thread)) => true
    ensures Alike(Next(s, step), Next(t, step), runID)
  {
    if step.Handle? && step.section.Append? {
      var thread := step.section.thread;
      if thread in s.inFlight {
        EventsForAppend(s.events, s.inFlight[thread], runID);
        if thread in t.inFlight {
          EventsForAppend(t.events, t.inFlight[thread], runID);
        }
      }
    }
  }

  /** A step of another run is invisible. */
  lemma OtherStepAlike(s: State, t: State, step: Step, runID: string)
    requires Alike(s, t, runID)
    requires match step
      case Register(r) => r != runID
      case Handle(Check(thread, req)) => RunOf(req) != runID
      case Handle(Append(thread)) => thread in s.inFlight ==> s.inFlight[thread].runID != runID
    ensures Alike(Next(s, step), t, runID)
  {
    if step.Handle? && step.section.Append? && step.section.thread in s.inFlight {
      EventsForAppend(s.events, s.inFlight[step.section.thread], runID);
    }
  }

  /** A handler that is being checked is not in flight already. */
  lemma CheckedThreadIsNew(trace: seq<Step>)
    requires OneRequestPerThread(trace) && trace != [] && IsCheck(trace[|trace| - 1])
    ensures trace[|trace| - 1].section.thread !in Replay(trace[..|trace| - 1]).inFlight
  {
    var n := |trace| - 1;
    var before, thread := trace[..n], trace[n].section.thread;
    assert forall i :: 0 <= i < n ==> trace[i] == before[i];
    assert forall runID :: !Serves(before, thread, runID);
    if thread in Replay(before).inFlight {
      InFlightIsServed(before, thread);
    }
  }

  lemma {:induction false} ProjectionAlike(trace: seq<Step>, runID: string)
    requires OneRequestPerThread(trace)
    ensures Alike(Replay(trace), Replay(Project(trace, runID)), runID)
  {
    if trace != [] {
      var n := |trace| - 1;
      var before, step := trace[..n], trace[n];
      ProjectionAlike(before, runID);
      var p := Project(before, runID);
      if IsCheck(step) {
        CheckedThreadIsNew(trace);
      }
      if Concerns(before, step, runID) {
        assert (p + [step])[..|p|] == p;
        OwnStepAlike(Replay(before), Replay(p), step, runID);
      } else {
        assert p + [] == p;
        if step.Handle? && step.section.Append? && step.section.thread in Replay(before).inFlight {
          InFlightIsServed(before, step.section.thread);
        }
        OtherStepAlike(Replay(before), Replay(p), step, runID);
      }
    }
  }

  /** What the coordinator reads for a run does not change when all traffic of other runs is deleted. */
  lemma NonInterference(trace: seq<Step>, runID: string)
    requires OneRequestPerThread(trace)
    ensures EventsFor(Replay(trace).events, runID) == EventsFor(Replay(Project(trace, runID)).events, runID)
  {
    ProjectionAlike(trace, runID);
  }

  // ----- where an event comes from -----

  lemma {:induction false} InFlightOrigin(trace: seq<Step>, thread: Thread) returns (req: Request, i: nat)
    requires thread in Replay(trace).inFlight
    ensures AcceptedAt(trace, thread, req, i) && EventOf(req) == Replay(trace).inFlight[thread]
  {
    var n := |trace| - 1;
    if thread in Replay(trace[..n]).inFlight {
      req, i := InFlightOrigin(trace[..n], thread);
      AcceptedAtPrefix(trace, n, thread, req, i);
    } else {
      req, i := trace[n].section.req, n;
      AllowedIffRegistered(trace[..n], RunOf(req));
    }
  }

  /** Behind every stored event there is a request that was checked after the registration of its run, and appended
      later. */
  lemma {:induction false} StoredOrigin(trace: seq<Step>, e: Event)
    returns (thread: Thread, req: Request, i: nat, k: nat)
    requires e in Replay(trace).events
    ensures AcceptedAt(trace, thread, req, i) && EventOf(req) == e
    ensures i < k < |trace| && trace[k] == Handle(Append(thread))
  {
    var n := |trace| - 1;
    if e in Replay(trace[..n]).events {
      thread, req, i, k := StoredOrigin(trace[..n], e);
      AcceptedAtPrefix(trace, n, thread, req, i);
    } else {
      thread, k := trace[n].section.thread, n;
      req, i := InFlightOrigin(trace[..n], thread);
      AcceptedAtPrefix(trace, n, thread, req, i);
    }
  }

  // ----- the order of commits -----

  /** `thread` was checked with `req` at step `i`, when its run had been registered. */
  ghost predicate AcceptedAt(trace: seq<Step>, thread: Thread, req: Request, i: nat) {
    i < |trace| && trace[i] == Handle(Check(thread, req)) && WellFormed(req) && RegisteredIn(trace[..i], RunOf(req))
  }

  /** `thread` was accepted with `req` and has not appended since. */
  ghost predicate Pending(trace: seq<Step>, thread: Thread, req: Request) {
    exists i: nat :: AcceptedAt(trace, thread, req, i) &&
      forall k :: i < k < |trace| ==> trace[k] != Handle(Append(thread))
  }

  lemma AcceptedAtPrefix(trace: seq<Step>, n: nat, thread: Thread, req: Request, i: nat)
    requires i < n <= |trace|
    ensures AcceptedAt(trace, thread, req, i) <==> AcceptedAt(trace[..n], thread, req, i)
  {
    assert trace[..n][..i] == trace[..i];
  }

  lemma PendingStep(trace: seq<Step>, thread: Thread, req: Request)
    requires trace != []
    ensures var n := |trace| - 1;
      Pending(trace, thread, req) <==>
        AcceptedAt(trace, thread, req, n) || (Pending(trace[..n], thread, req) && trace[n] != Handle(Append(thread)))
  {
    var n := |trace| - 1;
    var before := trace[..n];
    if Pending(trace, thread, req) {
      var i: nat :| AcceptedAt(trace, thread, req, i) &&
        forall k :: i < k < |trace| ==> trace[k] != Handle(Append(thread));
      if i < n {
        AcceptedAtPrefix(trace, n, thread, req, i);
        assert forall k :: i < k < n ==> before[k] == trace[k];
      }
    }
    if Pending(before, thread, req) && trace[n] != Handle(Append(thread)) {
      var i: nat :| AcceptedAt(before, thread, req, i) &&
        forall k :: i < k < n ==> before[k] != Handle(Append(thread));
      AcceptedAtPrefix(trace, n, thread, req, i);
      assert forall k :: i < k < n ==> before[k] == trace[k];
    }
  }

  lemma {:induction false} PendingIsInFlight(trace: seq<Step>, thread: Thread, req: Request)
    requires OneRequestPerThread(trace) && Pending(trace, thread, req)
    ensures thread in Replay(trace).inFlight && Replay(trace).inFlight[thread] == EventOf(req)
  {
    var n := |trace| - 1;
    PendingStep(trace, thread, req);
    if AcceptedAt(trace, thread, req, n) {
      CheckedThreadIsNew(trace);
      AllowedIffRegistered(trace[..n], RunOf(req));
    } else {
      PendingIsInFlight(trace[..n], thread, req);
    }
  }

  lemma {:induction false} InFlightIsPending(trace: seq<Step>, thread: Thread) returns (req: Request)
    requires thread in Replay(trace).inFlight
    ensures Pending(trace, thread, req)
  {
    var n := |trace| - 1;
    if thread in Replay(trace[..n]).inFlight {
      req := InFlightIsPending(trace[..n], thread);
      PendingStep(trace, thread, req);
    } else {
      req := trace[n].section.req;
      AllowedIffRegistered(trace[..n], RunOf(req));
      PendingStep(trace, thread, req);
    }
  }

  /** The handlers in flight are exactly the pending ones, each with the event of its request. */
  lemma InFlightIffPending(trace: seq<Step>, thread: Thread)
    requires OneRequestPerThread(trace)
    ensures thread in Replay(trace).inFlight <==> exists req :: Pending(trace, thread, req)
    ensures forall req :: Pending(trace, thread, req) ==>
      thread in Replay(trace).inFlight && Replay(trace).inFlight[thread] == EventOf(req)
  {
    if thread in Replay(trace).inFlight {
      var req := InFlightIsPending(trace, thread);
    }
    forall req | Pending(trace, thread, req)
      ensures thread in Replay(trace).inFlight && Replay(trace).inFlight[thread] == EventOf(req)
    {
      PendingIsInFlight(trace, thread, req);
    }
  }

  /** The accepted requests in the order in which they were appended, read off the history alone. */
  ghost function Committed(trace: seq<Step>): seq<Request> {
    if trace == [] then []
    else
      var n := |trace| - 1;
      Committed(trace[..n]) + CommittedBy(trace[..n], trace[n])
  }

  ghost function CommittedBy(before: seq<Step>, step: Step): seq<Request> {
    if step.Handle? && step.section.Append? && exists req :: Pending(before, step.section.thread, req) then
      var req :| Pending(before, step.section.thread, req);
      [req]
    else []
  }

  function EventsOf(requests: seq<Request>): seq<Event> {
    if requests == [] then [] else EventsOf(requests[..|requests| - 1]) + [EventOf(requests[|requests| - 1])]
  }

  lemma {:induction false} EventsOfConcat(a: seq<Request>, b: seq<Request>)
    ensures EventsOf(a + b) == EventsOf(a) + EventsOf(b)
  {
    if b == [] {
      assert a + b == a;
    } else {
      assert (a + b)[..|a + b| - 1] == a + b[..|b| - 1];
      EventsOfConcat(a, b[..|b| - 1]);
    }
  }

  /** What one step adds to the stored events. */
  lemma StepCommits(before: seq<Step>, step: Step)
    requires OneRequestPerThread(before)
    ensures Next(Replay(before), step).events == Replay(before).events + EventsOf(CommittedBy(before, step))
  {
    hide Replay, Pending, OneRequestPerThread;
    if step.Handle? && step.section.Append? {
      var thread := step.section.thread;
      InFlightIffPending(before, thread);
      if exists req :: Pending(before, thread, req) {
        var served := CommittedBy(before, step);
        assert Pending(before, thread, served[0]) && served[..0] == [];
      }
    }
  }

  /** The stored events are the accepted requests in commit order. */
  lemma {:induction false} StoredIsCommitted(trace: seq<Step>)
    requires OneRequestPerThread(trace)
    ensures Replay(trace).events == EventsOf(Committed(trace))
  {
    hide CommittedBy, Next, EventsOf;
    if trace == [] {
      NothingStored();
    } else {
      var n := |trace| - 1;
      StoredIsCommitted(trace[..n]);
      StepCommits(trace[..n], trace[n]);
      EventsOfConcat(Committed(trace[..n]), CommittedBy(trace[..n], trace[n]));
    }
  }

  lemma NothingStored()
    ensures Replay([]).events == EventsOf([])
  {
  }

  // ----- the two sections act as one -----

  datatype Whole = WholeRegister(runID: string) | WholeHandle(req: Request)

  datatype Simple = Simple(events: seq<Event>, allowed: set<string>)

  /** The sink with handlers that check and append in one go. */
  function SimpleNext(s: Simple, step: Whole): Simple {
    match step
    case WholeRegister(runID) => if ValidRunID(runID) then s.(allowed := s.allowed + {runID}) else s
    case WholeHandle(req) =>
      if WellFormed(req) && RunOf(req) in s.allowed then s.(events := s.events + [EventOf(req)]) else s
  }

  function SimpleReplay(steps: seq<Whole>): Simple {
    if steps == [] then Simple([], {}) else SimpleNext(SimpleReplay(steps[..|steps| - 1]), steps[|steps| - 1])
  }

  /** Each request at one point between its two sections: a rejected one at its check, an accepted one at its append. */
  ghost function Linearized(trace: seq<Step>): seq<Whole> {
    if trace == [] then []
    else
      var n := |trace| - 1;
      Linearized(trace[..n]) + LinearizedBy(trace[..n], trace[n])
  }

  ghost function LinearizedBy(before: seq<Step>, step: Step): seq<Whole> {
    match step
    case Register(runID) => [WholeRegister(runID)]
    case Handle(Check(thread, req)) => if AcceptedAt(before + [step], thread, req, |before|) then [] else [WholeHandle(req)]
    case Handle(Append(thread)) =>
      var served := CommittedBy(before, step);
      if served == [] then [] else [WholeHandle(served[0])]
  }

  lemma SimpleReplayAppend(steps: seq<Whole>, step: Whole)
    ensures SimpleReplay(steps + [step]) == SimpleNext(SimpleReplay(steps), step)
  {
    assert (steps + [step])[..|steps|] == steps;
  }

  function Simplified(s: State): Simple { Simple(s.events, s.allowed) }

  lemma CheckIsAtomic(before: seq<Step>, thread: Thread, req: Request)
    requires OneRequestPerThread(before + [Handle(Check(thread, req))])
    ensures var step := Handle(Check(thread, req));
      var served := LinearizedBy(before, step);
      Simplified(Next(Replay(before), step)) == Simplified(Replay(before)) &&
      (served == [] || (served == [WholeHandle(req)] && !Passes(Replay(before), req)))
  {
    AllowedIffRegistered(before, RunOf(req));
    assert (before + [Handle(Check(thread, req))])[..|before|] == before;
  }

  lemma AppendIsAtomic(before: seq<Step>, thread: Thread)
    requires OneRequestPerThread(before)
    ensures var step := Handle(Append(thread));
      var served := LinearizedBy(before, step);
      (served == [] ==> Simplified(Next(Replay(before), step)) == Simplified(Replay(before))) &&
      (served != [] ==> served == [served[0]]) &&
      (served != [] ==> Simplified(Next(Replay(before), step)) == SimpleNext(Simplified(Replay(before)), served[0]))
  {
    InFlightIffPending(before, thread);
    if exists req :: Pending(before, thread, req) {
      var req := CommittedBy(before, Handle(Append(thread)))[0];
      PendingIsWellFormed(before, thread, req);
      AllowedIffRegistered(before, RunOf(req));
    }
  }

  lemma StepIsAtomic(before: seq<Step>, step: Step)
    requires OneRequestPerThread(before + [step]) && OneRequestPerThread(before)
    ensures var served := LinearizedBy(before, step);
      |served| <= 1 &&
      (served == [] ==> Simplified(Next(Replay(before), step)) == Simplified(Replay(before))) &&
      (served != [] ==> Simplified(Next(Replay(before), step)) == SimpleNext(Simplified(Replay(before)), served[0]))
  {
    hide Replay, OneRequestPerThread;
    match step
    case Register(_) =>
    case Handle(Check(thread, req)) => CheckIsAtomic(before, thread, req);
    case Handle(Append(thread)) => AppendIsAtomic(before, thread);
  }

  /** Every interleaving of the two-section handlers has the effect of the one-section handlers run one after the
      other at those points. */
  lemma {:induction false} HandlersAreAtomic(trace: seq<Step>)
    requires OneRequestPerThread(trace)
    ensures SimpleReplay(Linearized(trace)) == Simplified(Replay(trace))
  {
    hide LinearizedBy, Next, SimpleNext;
    if trace != [] {
      var n := |trace| - 1;
      var before, step := trace[..n], trace[n];
      assert trace == before + [step];
      HandlersAreAtomic(before);
      StepIsAtomic(before, step);
      var earlier, served := Linearized(before), LinearizedBy(before, step);
      if served == [] {
        assert earlier + served == earlier;
      } else {
        SimpleReplayAppend(earlier, served[0]);
        assert served == [served[0]];
      }
    }
  }

  lemma PendingIsWellFormed(trace: seq<Step>, thread: Thread, req: Request)
    requires Pending(trace, thread, req)
    ensures WellFormed(req) && RegisteredIn(trace, RunOf(req))
  {
    var i: nat :| AcceptedAt(trace, thread, req, i) && forall k :: i < k < |trace| ==> trace[k] != Handle(Append(thread));
    assert Register(RunOf(req)) in trace[..i];
  }

  // ----- one request, from its check to its append -----

  lemma {:induction false} InFlightStays(trace: seq<Step>, more: seq<Step>, thread: Thread)
    requires forall i :: 0 <= i < |more| ==> !more[i].Handle? || more[i].section.thread != thread
    ensures thread in Replay(trace + more).inFlight <==> thread in Replay(trace).inFlight
    ensures thread in Replay(trace).inFlight ==>
      Replay(trace + more).inFlight[thread] == Replay(trace).inFlight[thread]
  {
    if more == [] {
      assert trace + more == trace;
    } else {
      var n := |more| - 1;
      assert (trace + more)[..|trace| + n] == trace + more[..n];
      InFlightStays(trace, more[..n], thread);
    }
  }

  /** The event of a request under `run`: the body counts for POST, and nothing does for GET. */
  function EventFor(run: string, req: Request): Event {
    if req.verb == "POST" then Event(run, req.path, req.size, req.sha)
    else Event(run, req.path, 0, "e3b0c44298fc1c149afbf4c8996fb92427ae41e4649b934ca495991b7852b855")
  }

  /** A request is stored under the run in its header, or in its query if there is none, exactly when that run has been
      registered before the check, and it is a GET, or a POST with a readable body of at most a mebibyte. Its append,
      whatever runs in between, then adds one event, and nothing otherwise. */
  lemma RequestIsStoredIff(trace: seq<Step>, thread: Thread, req: Request, between: seq<Step>)
    requires forall i :: 0 <= i < |trace| && IsCheck(trace[i]) ==> trace[i].section.thread != thread
    requires forall i :: 0 <= i < |between| ==> !between[i].Handle? || between[i].section.thread != thread
    ensures var before := trace + [Handle(Check(thread, req))] + between;
      var run := if req.header != "" then req.header else req.query;
      var stored := RunIDText(run) && Register(run) in trace &&
        (req.verb == "GET" || (req.verb == "POST" && !req.broken && req.size <= 1048576));
      Replay(before + [Handle(Append(thread))]).events
      == Replay(before).events + if stored then [EventFor(run, req)] else []
  {
    hide RunIDText, ValidRunID;
    var checked := trace + [Handle(Check(thread, req))];
    var before := checked + between;
    assert checked[..|trace|] == trace && (before + [Handle(Append(thread))])[..|before|] == before;
    if thread in Replay(trace).inFlight {
      InFlightIsServed(trace, thread);
    }
    ValidRunIDIff(RunOf(req));
    AllowedIffRegistered(trace, RunOf(req));
    InFlightStays(checked, between, thread);
  }

  /** A run ID is accepted for registration exactly when it consists of letters, digits and `-_.:`. */
  lemma RegisteredIff(trace: seq<Step>, run: string)
    ensures run in Replay(trace + [Register(run)]).allowed <==> RunIDText(run)
  {
    hide RunIDText, ValidRunID;
    ValidRunIDIff(run);
    assert (trace + [Register(run)])[..|trace|] == trace;
    if run in Replay(trace).allowed {
      AllowedIffRegistered(trace, run);
    }
  }
}
