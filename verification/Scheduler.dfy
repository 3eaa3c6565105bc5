/**
  The scheduler's concurrency (internal/scheduler/scheduler.go): configuration generations, single
  flight per generation and key, the eight worker slots. Every locked region, channel operation and
  run is one step; any number of refreshes interleave.
 */
module Scheduler {
  import Decimals
  import opened Options

  const WORKERS: nat := 8

  // ---------------------------------------------------------------- definitions and keys

  /** A configured card; the flight key defaults to the identifier. */
  datatype Spec = Spec(id: string, key: string)

  datatype Def = Def(id: string, key: string, generation: nat)

  function FlightKey(d: Def): string {
    Decimals.Decimal(d.generation) + ([':'] + if d.key == "" then d.id else d.key)
  }

  /** Definitions of different generations never share a flight. */
  lemma KeysSeparateGenerations(a: Def, b: Def)
    requires FlightKey(a) == FlightKey(b)
    ensures a.generation == b.generation &&
            (if a.key == "" then a.id else a.key) == (if b.key == "" then b.id else b.key)
  {
    var x, y := if a.key == "" then a.id else a.key, if b.key == "" then b.id else b.key;
    Decimals.DecimalReadable(a.generation, [':'] + x, b.generation, [':'] + y);
    assert ([':'] + x)[1..] == x && ([':'] + y)[1..] == y;
  }

  // ---------------------------------------------------------------- the machine

  datatype Result = Success(document: string) | Failure(error: string)

  /** A visible state and where it came from. */
  datatype Visible = Installed(generation: nat) | Committed(def: Def, result: Result) | Disabled(def: Def)

  /** Where a refresh is. */
  datatype Pc =
    | Called
    | Checked
    | Waiting(flight: nat)
    | Queued(flight: nat)
    | Running(flight: nat)
    | Returned(flight: nat)
    | Closing(flight: nat)
    | HasResult(result: Result, from: Option<nat>)
    | Finished

  datatype Thread = Thread(def: Def, pc: Pc)

  /** A flight a panic closed has no result. */
  datatype Flight = Flight(key: string, leader: nat, result: Option<Result>, done: bool)

  /** What a waiter reads: with nothing written, the zero document and no error. */
  function Read(f: Flight): Result { if f.result.Some? then f.result.value else Success("") }

  /** `known` is every definition ever installed: what a refresh loop or caller may hold. */
  datatype Sched = Sched(
    generation: nat, defs: map<string, Def>, states: map<string, Visible>, open: map<string, nat>, flights: seq<Flight>,
    threads: seq<Thread>, busy: nat, known: set<Def>)

  /** What a refresh can do next. */
  datatype Op =
    | Check
    | Enter
    | Acquire
    | Abort(error: string)
    | Return(result: Result)
    | Panic
    | Release
    | Close
    | Wake
    | Cancel(error: string)
    | Commit(stored: bool)
    | CommitDisabled(stored: bool)

  datatype Action = Apply(specs: seq<Spec>) | Call(def: Def) | Refresh(t: nat, op: Op)

  const EMPTY := Sched(0, map[], map[], map[], [], [], 0, {})

  /** Apply accepts: identifiers present and distinct. */
  predicate Acceptable(specs: seq<Spec>) {
    (forall i | 0 <= i < |specs| :: specs[i].id != "") &&
    forall i, j | 0 <= i < j < |specs| :: specs[i].id != specs[j].id
  }

  function Prepared(specs: seq<Spec>, generation: nat): (m: map<string, Def>)
    ensures forall id | id in m :: m[id].id == id && m[id].generation == generation
  {
    if specs == [] then map[]
    else
      var s := specs[|specs| - 1];
      Prepared(specs[..|specs| - 1], generation)[s.id := Def(s.id, s.key, generation)]
  }

  predicate Superseded(defs: map<string, Def>, d: Def) { d.id !in defs || defs[d.id].generation != d.generation }

  function Moved(s: Sched, t: nat, pc: Pc): Sched
    requires t < |s.threads|
  {
    s.(threads := s.threads[t := Thread(s.threads[t].def, pc)])
  }

  function Installs(s: Sched, specs: seq<Spec>): Sched {
    if !Acceptable(specs) then s
    else
      var defs := Prepared(specs, s.generation + 1);
      s.(generation := s.generation + 1, defs := defs, states := map id | id in defs :: Installed(s.generation + 1),
         known := s.known + defs.Values)
  }

  function Enters(s: Sched, t: nat): Sched
    requires t < |s.threads|
  {
    var key := FlightKey(s.threads[t].def);
    if key in s.open then Moved(s, t, Waiting(s.open[key]))
    else
      Moved(s.(flights := s.flights + [Flight(key, t, None, false)], open := s.open[key := |s.flights|]),
            t, Queued(|s.flights|))
  }

  /** The run's outcome is written to the flight. */
  function Resolves(s: Sched, t: nat, f: nat, r: Result, pc: Pc): Sched
    requires t < |s.threads| && f < |s.flights|
  {
    Moved(s.(flights := s.flights[f := s.flights[f].(result := Some(r))]), t, pc)
  }

  /** The deferred release; a leader that panicked goes on unwinding. */
  function Closes(s: Sched, t: nat, f: nat): Sched
    requires t < |s.threads| && f < |s.flights|
  {
    Moved(s.(flights := s.flights[f := s.flights[f].(done := true)], open := s.open - {FlightKey(s.threads[t].def)}),
          t, if s.flights[f].result.Some? then HasResult(s.flights[f].result.value, Some(f)) else Finished)
  }

  function Commits(s: Sched, t: nat, v: Visible, stored: bool): Sched
    requires t < |s.threads|
  {
    var d := s.threads[t].def;
    var done := Moved(s, t, Finished);
    if Superseded(s.defs, d) || !stored then done else done.(states := s.states[d.id := v])
  }

  function Next(s: Sched, a: Action): Sched {
    match a
    case Apply(specs) => Installs(s, specs)
    case Call(d) => if d in s.known then s.(threads := s.threads + [Thread(d, Called)]) else s
    case Refresh(t, op) => if t < |s.threads| then Step(s, t, op) else s
  }

  /** One step of refresh t. */
  function Step(s: Sched, t: nat, op: Op): Sched
    requires t < |s.threads|
  {
    var d, pc := s.threads[t].def, s.threads[t].pc;
    match op
    case Check => if !pc.Called? then s else Moved(s, t, if Superseded(s.defs, d) then Finished else Checked)
    case Enter => if !pc.Checked? then s else Enters(s, t)
    case CommitDisabled(stored) => if !pc.Checked? then s else Commits(s, t, Disabled(d), stored)
    case Commit(stored) => if !pc.HasResult? then s else Commits(s, t, Committed(d, pc.result), stored)
    case Acquire => if !pc.Queued? || s.busy >= WORKERS then s else Moved(s.(busy := s.busy + 1), t, Running(pc.flight))
    case Release => if !pc.Returned? || s.busy == 0 then s else Moved(s.(busy := s.busy - 1), t, Closing(pc.flight))
    case Cancel(error) => if !pc.Waiting? then s else Moved(s, t, HasResult(Failure(error), None))
    case Abort(error) =>
      if !pc.Queued? || pc.flight >= |s.flights| then s
      else Resolves(s, t, pc.flight, Failure(error), Closing(pc.flight))
    case Return(result) =>
      if !pc.Running? || pc.flight >= |s.flights| then s else Resolves(s, t, pc.flight, result, Returned(pc.flight))
    case Panic => if !pc.Running? then s else Moved(s, t, Returned(pc.flight))
    case Close => if !pc.Closing? || pc.flight >= |s.flights| then s else Closes(s, t, pc.flight)
    case Wake =>
      if !pc.Waiting? || pc.flight >= |s.flights| then s
      else
        var f := s.flights[pc.flight];
        if !f.done then s else Moved(s, t, HasResult(Read(f), Some(pc.flight)))
  }

  function Run(actions: seq<Action>): Sched {
    if actions == [] then EMPTY else Next(Run(actions[..|actions| - 1]), actions[|actions| - 1])
  }

  // ---------------------------------------------------------------- generation fencing

  /** A visible state belongs to the definition now configured. */
  predicate Belongs(s: Sched, id: string, v: Visible) {
    match v
    case Installed(g) => g == s.generation
    case Committed(d, _) => id in s.defs && d == s.defs[id]
    case Disabled(d) => id in s.defs && d == s.defs[id]
  }

  predicate FenceInv(s: Sched) {
    s.states.Keys == s.defs.Keys &&
    (forall id | id in s.defs :: s.defs[id].id == id &&
       s.defs[id].generation == s.generation && s.defs[id] in s.known) &&
    (forall d | d in s.known :: d.generation <= s.generation) &&
    (forall d | d in s.known && d.generation == s.generation :: d.id in s.defs && s.defs[d.id] == d) &&
    (forall t | 0 <= t < |s.threads| :: s.threads[t].def in s.known) &&
    forall id | id in s.states :: Belongs(s, id, s.states[id])
  }

  lemma InstallKeepsFence(s: Sched, specs: seq<Spec>)
    requires FenceInv(s)
    ensures FenceInv(Installs(s, specs))
  {
    hide Acceptable;
    var after := Installs(s, specs);
    if Acceptable(specs) {
      var defs := Prepared(specs, s.generation + 1);
      forall d | d in after.known && d.generation == after.generation
        ensures d.id in after.defs && after.defs[d.id] == d
      {
        assert d in defs.Values;
      }
      forall id | id in after.defs ensures after.defs[id] in after.known {
        assert defs[id] in defs.Values;
      }
    }
  }

  lemma CommitKeepsFence(s: Sched, t: nat, v: Visible, stored: bool)
    requires FenceInv(s) && t < |s.threads| && (v.Committed? || v.Disabled?) && v.def == s.threads[t].def
    ensures FenceInv(Commits(s, t, v, stored))
  {
    var d := s.threads[t].def;
    assert d in s.known;
  }

  /** A step of thread t that is not a commit touches neither definitions nor visible states. */
  predicate ThreadFrame(s: Sched, after: Sched) {
    after.generation == s.generation && after.defs == s.defs && after.states == s.states && after.known == s.known &&
    |after.threads| == |s.threads| && forall u | 0 <= u < |s.threads| :: after.threads[u].def == s.threads[u].def
  }

  predicate Committing(s: Sched, t: nat, op: Op)
    requires t < |s.threads|
  {
    (op.Commit? && s.threads[t].pc.HasResult?) || (op.CommitDisabled? && s.threads[t].pc.Checked?)
  }

  lemma StepFrame(s: Sched, t: nat, op: Op)
    requires t < |s.threads| && !Committing(s, t, op)
    ensures ThreadFrame(s, Step(s, t, op))
  {
    hide FlightKey, Superseded;
  }

  lemma FrameKeepsFence(s: Sched, after: Sched)
    requires FenceInv(s) && ThreadFrame(s, after)
    ensures FenceInv(after)
  {
  }

  lemma CallKeepsFence(s: Sched, d: Def)
    requires FenceInv(s) && d in s.known
    ensures FenceInv(s.(threads := s.threads + [Thread(d, Called)]))
  {
    hide Belongs;
    var after := s.(threads := s.threads + [Thread(d, Called)]);
    assert forall id | id in s.states :: Belongs(s, id, s.states[id]) == Belongs(after, id, s.states[id]) by {
      forall id | id in s.states ensures Belongs(s, id, s.states[id]) == Belongs(after, id, s.states[id]) {
        BelongsFrame(s, after, id, s.states[id]);
      }
    }
  }

  lemma BelongsFrame(s: Sched, after: Sched, id: string, v: Visible)
    requires after.generation == s.generation && after.defs == s.defs
    ensures Belongs(s, id, v) == Belongs(after, id, v)
  {
  }

  lemma StepKeepsFence(s: Sched, a: Action)
    requires FenceInv(s)
    ensures FenceInv(Next(s, a))
  {
    hide FenceInv, Step, Installs, Commits;
    match a
    case Apply(specs) => InstallKeepsFence(s, specs);
    case Call(d) => if d in s.known { CallKeepsFence(s, d); }
    case Refresh(t, op) =>
      if t < |s.threads| {
        if Committing(s, t, op) {
          StepCommits(s, t, op);
          CommitKeepsFence(s, t, Shown(s, t, op), op.stored);
        } else {
          StepFrame(s, t, op);
          FrameKeepsFence(s, Step(s, t, op));
        }
      }
  }

  /** What a commit shows. */
  function Shown(s: Sched, t: nat, op: Op): Visible
    requires t < |s.threads| && Committing(s, t, op)
  {
    if op.Commit? then Committed(s.threads[t].def, s.threads[t].pc.result) else Disabled(s.threads[t].def)
  }

  lemma StepCommits(s: Sched, t: nat, op: Op)
    requires t < |s.threads| && Committing(s, t, op)
    ensures Step(s, t, op) == Commits(s, t, Shown(s, t, op), op.stored)
  {
    hide FlightKey, Commits;
  }

  lemma {:induction false} RunKeepsFence(actions: seq<Action>)
    ensures FenceInv(Run(actions))
  {
    hide Next, FenceInv;
    if actions == [] {
      assert FenceInv(EMPTY) by { EmptyFence(); }
    } else {
      var n := |actions| - 1;
      RunKeepsFence(actions[..n]);
      StepKeepsFence(Run(actions[..n]), actions[n]);
    }
  }

  lemma EmptyFence()
    ensures FenceInv(EMPTY)
  {
  }

  /**
    Fencing: in every interleaving the visible states are those of the configured cards, each one
    installed by the latest Apply or committed by a refresh of the very definition now configured.
   */
  lemma VisibleIsCurrent(actions: seq<Action>, id: string)
    ensures var s := Run(actions);
            (id in s.states <==> id in s.defs) &&
            (id in s.states ==>
               s.defs[id].generation == s.generation &&
               (s.states[id] == Installed(s.generation) ||
                ((s.states[id].Committed? || s.states[id].Disabled?) && s.states[id].def == s.defs[id])))
  {
    hide Run;
    RunKeepsFence(actions);
    var s := Run(actions);
    assert id in s.states.Keys <==> id in s.defs.Keys;
    if id in s.states { assert Belongs(s, id, s.states[id]); }
  }

  // ---------------------------------------------------------------- single flight

  predicate Leads(pc: Pc) { pc.Queued? || pc.Running? || pc.Returned? || pc.Closing? }

  /** A thread against the flight it is on. */
  predicate ThreadOk(flights: seq<Flight>, t: nat, th: Thread) {
    (th.pc.Waiting? ==> th.pc.flight < |flights| && flights[th.pc.flight].key == FlightKey(th.def)) &&
    (th.pc.HasResult? && th.pc.from.Some? ==>
       th.pc.from.value < |flights| && flights[th.pc.from.value].key == FlightKey(th.def) &&
       flights[th.pc.from.value].done && Read(flights[th.pc.from.value]) == th.pc.result) &&
    (Leads(th.pc) ==>
       th.pc.flight < |flights| && flights[th.pc.flight].leader == t &&
       flights[th.pc.flight].key == FlightKey(th.def) &&
       !flights[th.pc.flight].done && (th.pc.Queued? || th.pc.Running? ==> flights[th.pc.flight].result.None?))
  }

  /** A flight that is not done is the open one for its key and has a live leader. */
  predicate FlightOk(open: map<string, nat>, threads: seq<Thread>, f: nat, flight: Flight) {
    !flight.done ==>
      flight.key in open && open[flight.key] == f && flight.leader < |threads| && Leads(threads[flight.leader].pc) &&
      threads[flight.leader].pc.flight == f
  }

  predicate OpenOk(flights: seq<Flight>, key: string, f: nat) {
    f < |flights| && flights[f].key == key && !flights[f].done
  }

  predicate FlightInv(s: Sched) {
    (forall t | 0 <= t < |s.threads| :: ThreadOk(s.flights, t, s.threads[t])) &&
    (forall f | 0 <= f < |s.flights| :: FlightOk(s.open, s.threads, f, s.flights[f])) &&
    forall key | key in s.open :: OpenOk(s.flights, key, s.open[key])
  }

  /** Moving a thread between two places that mean the same to the flights. */
  lemma MoveKeepsFlights(s: Sched, after: Sched, t: nat, pc: Pc)
    requires FlightInv(s) && t < |s.threads| && after.flights == s.flights && after.open == s.open
    requires after.threads == s.threads[t := Thread(s.threads[t].def, pc)]
    requires ThreadOk(s.flights, t, Thread(s.threads[t].def, pc))
    requires Leads(s.threads[t].pc) <==> Leads(pc)
    requires Leads(pc) ==> pc.flight == s.threads[t].pc.flight
    ensures FlightInv(after)
  {
    hide ThreadOk, OpenOk;
  }

  lemma EnterKeepsFlights(s: Sched, t: nat)
    requires FlightInv(s) && t < |s.threads| && s.threads[t].pc.Checked?
    ensures FlightInv(Enters(s, t))
  {
    hide FlightKey;
    var key, after := FlightKey(s.threads[t].def), Enters(s, t);
    if key in s.open {
      assert OpenOk(s.flights, key, s.open[key]);
      MoveKeepsFlights(s, after, t, Waiting(s.open[key]));
    } else {
      forall u | 0 <= u < |after.threads| ensures ThreadOk(after.flights, u, after.threads[u]) {
        assert ThreadOk(s.flights, u, s.threads[u]);
      }
      forall f | 0 <= f < |after.flights| ensures FlightOk(after.open, after.threads, f, after.flights[f]) {
        if f < |s.flights| { assert FlightOk(s.open, s.threads, f, s.flights[f]); }
      }
      forall k | k in after.open ensures OpenOk(after.flights, k, after.open[k]) {
        if k != key { assert OpenOk(s.flights, k, s.open[k]); }
      }
    }
  }

  lemma ResolveKeepsFlights(s: Sched, t: nat, f: nat, r: Result, pc: Pc)
    requires FlightInv(s) && t < |s.threads| && f < |s.flights|
    requires (s.threads[t].pc == Queued(f) && pc == Closing(f)) || (s.threads[t].pc == Running(f) && pc == Returned(f))
    ensures FlightInv(Resolves(s, t, f, r, pc))
  {
    hide FlightKey;
    var after := Resolves(s, t, f, r, pc);
    assert ThreadOk(s.flights, t, s.threads[t]);
    forall u | 0 <= u < |after.threads| ensures ThreadOk(after.flights, u, after.threads[u]) {
      assert ThreadOk(s.flights, u, s.threads[u]);
    }
    forall g | 0 <= g < |after.flights| ensures FlightOk(after.open, after.threads, g, after.flights[g]) {
      assert FlightOk(s.open, s.threads, g, s.flights[g]);
    }
    forall k | k in after.open ensures OpenOk(after.flights, k, after.open[k]) {
      assert OpenOk(s.flights, k, s.open[k]);
    }
  }

  lemma CloseKeepsFlights(s: Sched, t: nat, f: nat)
    requires FlightInv(s) && t < |s.threads| && f < |s.flights| && s.threads[t].pc == Closing(f)
    ensures FlightInv(Closes(s, t, f))
  {
    hide FlightKey;
    var after, key := Closes(s, t, f), FlightKey(s.threads[t].def);
    assert ThreadOk(s.flights, t, s.threads[t]);
    assert FlightOk(s.open, s.threads, f, s.flights[f]);
    forall u | 0 <= u < |after.threads| ensures ThreadOk(after.flights, u, after.threads[u]) {
      assert ThreadOk(s.flights, u, s.threads[u]);
    }
    forall g | 0 <= g < |after.flights| ensures FlightOk(after.open, after.threads, g, after.flights[g]) {
      assert FlightOk(s.open, s.threads, g, s.flights[g]);
    }
    forall k | k in after.open ensures OpenOk(after.flights, k, after.open[k]) {
      assert OpenOk(s.flights, k, s.open[k]);
    }
  }

  lemma ThreadStepKeepsFlights(s: Sched, t: nat, op: Op)
    requires FlightInv(s) && t < |s.threads|
    ensures FlightInv(Step(s, t, op))
  {
    hide FlightKey, FlightInv, Enters, Resolves, Closes, FlightOk;
    var pc, after := s.threads[t].pc, Step(s, t, op);
    ThreadsOk(s, t);
    match op
    case Enter => if pc.Checked? { EnterKeepsFlights(s, t); }
    case Abort(error) => if pc.Queued? { ResolveKeepsFlights(s, t, pc.flight, Failure(error), Closing(pc.flight)); }
    case Return(result) => if pc.Running? { ResolveKeepsFlights(s, t, pc.flight, result, Returned(pc.flight)); }
    case Close => if pc.Closing? { CloseKeepsFlights(s, t, pc.flight); }
    case _ => if after != s { MoveKeepsFlights(s, after, t, after.threads[t].pc); }
  }

  lemma ThreadsOk(s: Sched, t: nat)
    requires FlightInv(s) && t < |s.threads|
    ensures ThreadOk(s.flights, t, s.threads[t])
  {
  }

  lemma CallKeepsFlights(s: Sched, d: Def)
    requires FlightInv(s)
    ensures FlightInv(s.(threads := s.threads + [Thread(d, Called)]))
  {
    hide FlightKey;
    var after := s.(threads := s.threads + [Thread(d, Called)]);
    forall u | 0 <= u < |after.threads| ensures ThreadOk(after.flights, u, after.threads[u]) {
      if u < |s.threads| { assert ThreadOk(s.flights, u, s.threads[u]); }
    }
    forall g | 0 <= g < |after.flights| ensures FlightOk(after.open, after.threads, g, after.flights[g]) {
      assert FlightOk(s.open, s.threads, g, s.flights[g]);
    }
  }

  lemma StepKeepsFlights(s: Sched, a: Action)
    requires FlightInv(s)
    ensures FlightInv(Next(s, a))
  {
    hide FlightKey, Step, ThreadOk, FlightOk, OpenOk;
    match a
    case Apply(specs) =>
    case Call(d) => CallKeepsFlights(s, d);
    case Refresh(t, op) => if t < |s.threads| { ThreadStepKeepsFlights(s, t, op); }
  }

  lemma {:induction false} RunKeepsFlights(actions: seq<Action>)
    ensures FlightInv(Run(actions))
  {
    hide Next;
    if actions != [] {
      var n := |actions| - 1;
      RunKeepsFlights(actions[..n]);
      StepKeepsFlights(Run(actions[..n]), actions[n]);
    }
  }

  /** Single flight: in every interleaving two runs under way have different keys. */
  lemma OneRunPerKey(actions: seq<Action>, t: nat, u: nat)
    requires t < u < |Run(actions).threads|
    requires Leads(Run(actions).threads[t].pc) && Leads(Run(actions).threads[u].pc)
    ensures FlightKey(Run(actions).threads[t].def) != FlightKey(Run(actions).threads[u].def)
  {
    hide Run, FlightKey;
    RunKeepsFlights(actions);
    var s := Run(actions);
    ThreadsOk(s, t);
    ThreadsOk(s, u);
    var f, g := s.threads[t].pc.flight, s.threads[u].pc.flight;
    assert FlightOk(s.open, s.threads, f, s.flights[f]) && FlightOk(s.open, s.threads, g, s.flights[g]);
  }

  /**
    A waiter is on a flight of its own key: one whose leader is still at work, or one that is done
    and can be read, even if the leader panicked. A refresh that got its result from a flight got
    that flight's.
   */
  lemma WaitersAreServed(actions: seq<Action>, t: nat)
    requires t < |Run(actions).threads|
    ensures var s := Run(actions);
            var th := s.threads[t];
            (th.pc.Waiting? ==>
               th.pc.flight < |s.flights| &&
               var f := s.flights[th.pc.flight];
               f.key == FlightKey(th.def) &&
               (f.done ||
                (f.leader < |s.threads| && Leads(s.threads[f.leader].pc) &&
                 s.threads[f.leader].pc.flight == th.pc.flight))) &&
            (th.pc.HasResult? && th.pc.from.Some? ==>
               th.pc.from.value < |s.flights| && s.flights[th.pc.from.value].key == FlightKey(th.def) &&
               s.flights[th.pc.from.value].done && Read(s.flights[th.pc.from.value]) == th.pc.result)
  {
    hide Run, FlightKey;
    RunKeepsFlights(actions);
    var s := Run(actions);
    ThreadsOk(s, t);
    if s.threads[t].pc.Waiting? {
      var f := s.threads[t].pc.flight;
      assert FlightOk(s.open, s.threads, f, s.flights[f]);
    }
  }

  /** A flight's key, leader and result, once written or once done, never change. */
  predicate FlightsKept(s: Sched, after: Sched) {
    |s.flights| <= |after.flights| &&
    forall f | 0 <= f < |s.flights| ::
      after.flights[f].key == s.flights[f].key && after.flights[f].leader == s.flights[f].leader &&
      (s.flights[f].result.Some? ==> after.flights[f].result == s.flights[f].result) &&
      (s.flights[f].done ==> after.flights[f].done && after.flights[f].result == s.flights[f].result)
  }

  lemma StepKeepsResults(s: Sched, t: nat, op: Op)
    requires FlightInv(s) && t < |s.threads|
    ensures FlightsKept(s, Step(s, t, op))
  {
    hide FlightKey, FlightInv;
    ThreadsOk(s, t);
  }

  /** So whoever reads a flight's result later reads what its leader wrote. */
  lemma {:induction false} ResultsAreFinal(actions: seq<Action>, more: seq<Action>)
    ensures FlightsKept(Run(actions), Run(actions + more))
  {
    hide Step, FlightInv;
    if more == [] {
      assert actions + more == actions;
    } else {
      var n := |more| - 1;
      var all := actions + more;
      assert all[..|all| - 1] == actions + more[..n];
      ResultsAreFinal(actions, more[..n]);
      var s, a := Run(actions + more[..n]), more[n];
      RunKeepsFlights(actions + more[..n]);
      if a.Refresh? && a.t < |s.threads| { StepKeepsResults(s, a.t, a.op); }
    }
  }

  // ---------------------------------------------------------------- the worker slots

  /** Between taking a slot and giving it back: the card is running. */
  function Slot(pc: Pc): nat { if pc.Running? || pc.Returned? then 1 else 0 }

  function Active(threads: seq<Thread>): nat {
    if threads == [] then 0 else Active(threads[..|threads| - 1]) + Slot(threads[|threads| - 1].pc)
  }

  lemma {:induction false} ActiveMoved(threads: seq<Thread>, t: nat, th: Thread)
    requires t < |threads|
    ensures Active(threads[t := th]) == Active(threads) - Slot(threads[t].pc) + Slot(th.pc)
  {
    var n := |threads| - 1;
    var after := threads[t := th];
    if t == n {
      assert after[..n] == threads[..n];
    } else {
      ActiveMoved(threads[..n], t, th);
      assert after[..n] == threads[..n][t := th];
    }
  }

  predicate SlotInv(s: Sched) { s.busy == Active(s.threads) <= WORKERS }

  lemma StepKeepsSlots(s: Sched, t: nat, op: Op)
    requires SlotInv(s) && t < |s.threads|
    requires s.threads[t].pc.Running? || s.threads[t].pc.Returned? ==> s.busy > 0
    requires (s.threads[t].pc.Running? || s.threads[t].pc.Closing? || s.threads[t].pc.Queued?) ==>
             s.threads[t].pc.flight < |s.flights|
    ensures SlotInv(Step(s, t, op))
  {
    hide FlightKey, Active, Superseded;
    var after := Step(s, t, op);
    ActiveMoved(s.threads, t, after.threads[t]);
    assert after == s || after.threads == s.threads[t := after.threads[t]];
  }

  lemma {:induction false} ActiveCounts(threads: seq<Thread>, t: nat)
    requires t < |threads| && Slot(threads[t].pc) == 1
    ensures Active(threads) > 0
  {
    if t < |threads| - 1 { ActiveCounts(threads[..|threads| - 1], t); }
  }

  lemma {:induction false} RunKeepsSlots(actions: seq<Action>)
    ensures SlotInv(Run(actions))
  {
    hide Step, FlightInv, Active, FlightKey;
    if actions == [] {
      assert Active([]) == 0 by { NoneActive(); }
    } else {
      var n := |actions| - 1;
      RunKeepsSlots(actions[..n]);
      RunKeepsFlights(actions[..n]);
      var s, a := Run(actions[..n]), actions[n];
      if a.Call? {
        ActiveCalled(s.threads, a.def);
      } else if a.Refresh? && a.t < |s.threads| {
        ThreadsOk(s, a.t);
        if Slot(s.threads[a.t].pc) == 1 { ActiveCounts(s.threads, a.t); }
        StepKeepsSlots(s, a.t, a.op);
      }
    }
  }

  lemma NoneActive()
    ensures Active([]) == 0
  {
  }

  lemma ActiveCalled(threads: seq<Thread>, d: Def)
    ensures Active(threads + [Thread(d, Called)]) == Active(threads)
  {
    assert (threads + [Thread(d, Called)])[..|threads|] == threads;
  }

  /** At most eight cards run at once, whatever is applied, called or cancelled. */
  lemma AtMostEight(actions: seq<Action>)
    ensures Active(Run(actions).threads) <= WORKERS
  {
    RunKeepsSlots(actions);
  }

  // ---------------------------------------------------------------- a waiter's fate

  /** Still waiting for flight f, cancelled, holding f's result, or past its commit. */
  predicate OnFlight(pc: Pc, f: nat) {
    pc == Waiting(f) || (pc.HasResult? && (pc.from == None || pc.from == Some(f))) || pc.Finished?
  }

  lemma StepKeepsWaiter(s: Sched, a: Action, t: nat, f: nat)
    requires t < |s.threads| && OnFlight(s.threads[t].pc, f)
    ensures t < |Next(s, a).threads| && OnFlight(Next(s, a).threads[t].pc, f)
  {
    hide Step;
    if a.Refresh? && a.t < |s.threads| {
      if a.t == t { WaiterSteps(s, t, a.op, f); } else { OthersStay(s, a.t, a.op, t); }
    }
  }

  lemma OthersStay(s: Sched, t: nat, op: Op, u: nat)
    requires t < |s.threads| && u < |s.threads| && u != t
    ensures u < |Step(s, t, op).threads| && Step(s, t, op).threads[u] == s.threads[u]
  {
    hide FlightKey, Superseded;
  }

  lemma WaiterSteps(s: Sched, t: nat, op: Op, f: nat)
    requires t < |s.threads| && OnFlight(s.threads[t].pc, f)
    ensures t < |Step(s, t, op).threads| && OnFlight(Step(s, t, op).threads[t].pc, f)
  {
    hide Enters, Resolves, Closes, Superseded;
  }

  /**
    Whatever else happens, a refresh that joined a flight ends with that flight's result unless it is
    cancelled: what the leader wrote, or the zero document if the leader panicked before it could.
   */
  lemma {:induction false} WaiterGetsLeadersResult(actions: seq<Action>, more: seq<Action>, t: nat, f: nat)
    requires t < |Run(actions).threads| && Run(actions).threads[t].pc == Waiting(f)
    ensures var s := Run(actions + more);
            t < |s.threads| && OnFlight(s.threads[t].pc, f) &&
            (s.threads[t].pc.HasResult? && s.threads[t].pc.from.Some? ==>
               f < |s.flights| && s.flights[f].done && Read(s.flights[f]) == s.threads[t].pc.result)
  {
    hide Next, FlightKey;
    if more == [] {
      assert actions + more == actions;
    } else {
      var n := |more| - 1;
      var all := actions + more;
      assert all[..|all| - 1] == actions + more[..n];
      WaiterGetsLeadersResult(actions, more[..n], t, f);
      StepKeepsWaiter(Run(actions + more[..n]), more[n], t, f);
      WaitersAreServed(all, t);
    }
  }

  // ---------------------------------------------------------------- a waiter can always finish

  /** The states some further actions lead through. */
  function Follow(s: Sched, actions: seq<Action>): Sched
    decreases |actions|
  {
    if actions == [] then s else Follow(Next(s, actions[0]), actions[1..])
  }

  lemma {:induction false} RunFollows(actions: seq<Action>, more: seq<Action>)
    ensures Run(actions + more) == Follow(Run(actions), more)
    decreases more
  {
    hide Next;
    if more == [] {
      assert actions + more == actions;
    } else {
      var first := actions + [more[0]];
      assert first[..|first| - 1] == actions;
      assert actions + more == first + more[1..];
      RunFollows(first, more[1..]);
    }
  }

  /** Ordinary work: no cancellation, no panic, no new configuration. */
  predicate Works(a: Action) {
    a.Refresh? && (a.op.Acquire? || a.op.Return? || a.op.Release? || a.op.Close? || a.op.Wake?)
  }

  predicate AllWork(actions: seq<Action>) { forall i | 0 <= i < |actions| :: Works(actions[i]) }

  /** Some refresh has returned and not yet given its slot back. */
  predicate SomeReturned(threads: seq<Thread>) { exists u :: 0 <= u < |threads| && threads[u].pc.Returned? }

  /** Steps left for waiter t on flight f. */
  function Rank(s: Sched, f: nat): nat
    requires f < |s.flights| && (!s.flights[f].done ==> s.flights[f].leader < |s.threads|)
  {
    if s.flights[f].done then 0
    else
      match s.threads[s.flights[f].leader].pc
      case Closing(_) => 1
      case Returned(_) => 2
      case Running(_) => 3
      case _ => if s.busy < WORKERS then 4 else if SomeReturned(s.threads) then 5 else 6
  }

  predicate ReadyInv(s: Sched) { FlightInv(s) && SlotInv(s) }

  lemma WorkKeepsReady(s: Sched, t: nat, op: Op)
    requires ReadyInv(s) && t < |s.threads|
    ensures ReadyInv(Step(s, t, op))
  {
    hide FlightInv, Step, Active, FlightKey;
    ThreadStepKeepsFlights(s, t, op);
    ThreadsOk(s, t);
    if Slot(s.threads[t].pc) == 1 { ActiveCounts(s.threads, t); }
    StepKeepsSlots(s, t, op);
  }

  /** With every slot taken, some refresh holds one. */
  lemma {:induction false} SomeActive(threads: seq<Thread>) returns (u: nat)
    requires Active(threads) > 0
    ensures u < |threads| && Slot(threads[u].pc) == 1
  {
    var n := |threads| - 1;
    if Slot(threads[n].pc) == 1 { u := n; } else { u := SomeActive(threads[..n]); }
  }

  /** A step the leader of flight f takes, or, while every slot is taken, one that frees a slot for it. */
  predicate Towards(s: Sched, f: nat, u: nat, op: Op)
    requires f < |s.flights| && s.flights[f].leader < |s.threads| && u < |s.threads|
  {
    var l, pc := s.flights[f].leader, s.threads[u].pc;
    (u == l && ((op.Close? && pc.Closing?) || (op.Release? && pc.Returned?) || (op.Return? && pc.Running?) ||
                (op.Acquire? && pc.Queued? && s.busy < WORKERS))) ||
    (u != l && s.threads[l].pc.Queued? && s.busy == WORKERS &&
     ((op.Release? && pc.Returned?) || (op.Return? && pc.Running? && !SomeReturned(s.threads))))
  }

  lemma NextWork(s: Sched, f: nat) returns (u: nat, op: Op)
    requires ReadyInv(s) && f < |s.flights| && !s.flights[f].done
    ensures s.flights[f].leader < |s.threads| && u < |s.threads| && Works(Refresh(u, op)) && Towards(s, f, u, op)
  {
    hide FlightKey, Active, SomeReturned;
    assert FlightOk(s.open, s.threads, f, s.flights[f]);
    var l := s.flights[f].leader;
    u := l;
    if s.threads[l].pc.Closing? {
      op := Close;
    } else if s.threads[l].pc.Returned? {
      op := Release;
    } else if s.threads[l].pc.Running? {
      op := Return(Success(""));
    } else if s.busy < WORKERS {
      op := Acquire;
    } else {
      u, op := FreeSlot(s);
    }
  }

  /** With every slot taken, one can be given back. */
  lemma FreeSlot(s: Sched) returns (u: nat, op: Op)
    requires SlotInv(s) && s.busy == WORKERS
    ensures u < |s.threads|
    ensures (op.Release? && s.threads[u].pc.Returned?) ||
            (op.Return? && s.threads[u].pc.Running? && !SomeReturned(s.threads))
  {
    if SomeReturned(s.threads) {
      u :| 0 <= u < |s.threads| && s.threads[u].pc.Returned?;
      op := Release;
    } else {
      u := SomeActive(s.threads);
      op := Return(Success(""));
    }
  }

  /** Such a step brings the waiter closer and leaves it where it is. */
  lemma WorkBringsCloser(s: Sched, t: nat, u: nat, op: Op)
    requires ReadyInv(s) && t < |s.threads| && s.threads[t].pc.Waiting? && s.threads[t].pc.flight < |s.flights|
    requires var f := s.threads[t].pc.flight;
             !s.flights[f].done && s.flights[f].leader < |s.threads| && u < |s.threads| && Towards(s, f, u, op)
    ensures var f, after := s.threads[t].pc.flight, Step(s, u, op);
            ReadyInv(after) && t < |after.threads| && after.threads[t] == s.threads[t] && f < |after.flights| &&
            (!after.flights[f].done ==> after.flights[f].leader < |after.threads|) && Rank(after, f) < Rank(s, f)
  {
    hide FlightKey, FlightInv, SlotInv;
    var f, after := s.threads[t].pc.flight, Step(s, u, op);
    assert u != t;
    assert ReadyInv(after) by { WorkKeepsReady(s, u, op); }
    OthersStay(s, u, op, t);
    assert s.busy > 0 || !s.threads[u].pc.Returned? by { SlotsHeld(s, u); }
    ThreadsOk(s, u);
    LeaderOk(s, f);
    assert op.Release? ==> SomeReturned(s.threads);
    if op.Return? { assert after.threads[u].pc.Returned?; }
  }

  lemma LeaderOk(s: Sched, f: nat)
    requires FlightInv(s) && f < |s.flights|
    ensures FlightOk(s.open, s.threads, f, s.flights[f])
  {
  }

  lemma SlotsHeld(s: Sched, u: nat)
    requires SlotInv(s) && u < |s.threads|
    ensures s.busy > 0 || !s.threads[u].pc.Returned?
  {
    if s.threads[u].pc.Returned? { ActiveCounts(s.threads, u); }
  }

  lemma {:induction false} Progress(s: Sched, t: nat) returns (more: seq<Action>)
    requires ReadyInv(s) && t < |s.threads| && s.threads[t].pc.Waiting?
    requires s.threads[t].pc.flight < |s.flights|
    requires var f := s.threads[t].pc.flight; !s.flights[f].done ==> s.flights[f].leader < |s.threads|
    ensures AllWork(more) && t < |Follow(s, more).threads| && Follow(s, more).threads[t].pc.HasResult?
    decreases Rank(s, s.threads[t].pc.flight)
  {
    var f := s.threads[t].pc.flight;
    if s.flights[f].done {
      more := [Refresh(t, Wake)];
      assert more[1..] == [];
      assert Follow(s, more) == Follow(Step(s, t, Wake), []);
    } else {
      hide Step, Towards, ReadyInv, Rank;
      var u, op := NextWork(s, f);
      WorkBringsCloser(s, t, u, op);
      var rest := Progress(Step(s, u, op), t);
      more := [Refresh(u, op)] + rest;
      assert more[1..] == rest && Next(s, more[0]) == Step(s, u, op);
    }
  }

  /**
    No waiter is stranded: from every reachable state ordinary steps of running refreshes, of its
    leader and of the waiter itself bring it to a result, with no cancellation, abort or panic.
   */
  lemma WaiterCanFinish(actions: seq<Action>, t: nat) returns (more: seq<Action>)
    requires t < |Run(actions).threads| && Run(actions).threads[t].pc.Waiting?
    ensures AllWork(more) && t < |Run(actions + more).threads| && Run(actions + more).threads[t].pc.HasResult?
  {
    hide Run, FlightKey, Follow;
    RunKeepsFlights(actions);
    RunKeepsSlots(actions);
    WaitersAreServed(actions, t);
    more := Progress(Run(actions), t);
    RunFollows(actions, more);
  }

  // ---------------------------------------------------------------- the code

  /** The manager's fields under its lock; flights are numbered by their position. */
  class Manager {
    var generation: nat
    var defs: map<string, Def>
    var states: map<string, Visible>
    var open: map<string, nat>
    var flights: seq<Flight>

    /** The machine's state agrees with the fields. */
    ghost predicate Matches(s: Sched)
      reads this
    {
      s.generation == generation && s.defs == defs && s.states == states && s.open == open && s.flights == flights
    }

    constructor ()
      ensures Matches(EMPTY)
    {
      generation, defs, states, open, flights := 0, map[], map[], map[], [];
    }

    /** Apply: one step of the machine, or nothing when an identifier is missing or repeated. */
    method Apply(specs: seq<Spec>, ghost s: Sched) returns (ok: bool)
      requires Matches(s)
      modifies this
      ensures ok <==> Acceptable(specs)
      ensures Matches(Installs(s, specs))
    {
      hide Acceptable;
      var prepared := map[];
      assert Acceptable(specs[..0]) by { NoneAcceptable(specs); }
      for i := 0 to |specs|
        invariant unchanged(this)
        invariant Acceptable(specs[..i]) && prepared == Prepared(specs[..i], generation + 1)
      {
        hide Prepared;
        PreparedStep(specs, i, generation + 1);
        if specs[i].id == "" { return false; }
        if specs[i].id in prepared { return false; }
        prepared := prepared[specs[i].id := Def(specs[i].id, specs[i].key, generation + 1)];
      }
      assert specs[..|specs|] == specs;
      generation := generation + 1;
      defs := prepared;
      states := map id | id in prepared :: Installed(generation);
      return true;
    }

    /** refresh's first look at the definitions. */
    method CheckDefinition(d: Def, ghost s: Sched, ghost t: nat) returns (ok: bool)
      requires Matches(s) && t < |s.threads| && s.threads[t] == Thread(d, Called)
      ensures Matches(Step(s, t, Check))
      ensures Step(s, t, Check).threads[t].pc == if ok then Checked else Finished
    {
      ok := d.id in defs && defs[d.id].generation == d.generation;
    }

    /** runShared's first locked region: join the open flight of the key, or lead a new one. */
    method EnterFlight(d: Def, t: nat, ghost s: Sched) returns (f: nat, leads: bool)
      requires Matches(s) && t < |s.threads| && s.threads[t] == Thread(d, Checked)
      modifies this`open, this`flights
      ensures Matches(Step(s, t, Enter))
      ensures Step(s, t, Enter).threads[t].pc == if leads then Queued(f) else Waiting(f)
    {
      hide FlightKey;
      var key := FlightKey(d);
      if key in open { return open[key], false; }
      f, leads := |flights|, true;
      flights := flights + [Flight(key, t, None, false)];
      open := open[key := f];
    }

    /** The leader writes what the run returned. */
    method Record(f: nat, r: Result, ghost s: Sched, ghost t: nat)
      requires Matches(s) && t < |s.threads| && s.threads[t].pc == Running(f) && f < |flights|
      modifies this`flights
      ensures Matches(Step(s, t, Return(r)))
    {
      flights := flights[f := flights[f].(result := Some(r))];
    }

    /** runShared's deferred region: the key is free again and the waiters wake. */
    method CloseFlight(d: Def, f: nat, ghost s: Sched, ghost t: nat)
      requires Matches(s) && t < |s.threads| && s.threads[t] == Thread(d, Closing(f)) && f < |flights|
      modifies this`open, this`flights
      ensures Matches(Step(s, t, Close))
    {
      hide FlightKey;
      open := open - {FlightKey(d)};
      flights := flights[f := flights[f].(done := true)];
    }

    /** commitWithHistory: refused when a newer configuration has replaced the definition. */
    method CommitState(d: Def, r: Result, stored: bool, ghost s: Sched, ghost t: nat) returns (ok: bool)
      requires Matches(s) && t < |s.threads| && s.threads[t].def == d &&
               s.threads[t].pc.HasResult? && s.threads[t].pc.result == r
      modifies this`states
      ensures Matches(Step(s, t, Commit(stored)))
      ensures ok <==> stored && d.id in defs && defs[d.id].generation == d.generation
    {
      if d.id !in defs || defs[d.id].generation != d.generation { return false; }
      if !stored { return false; }
      states := states[d.id := Committed(d, r)];
      return true;
    }
  }

  lemma NoneAcceptable(specs: seq<Spec>)
    ensures Acceptable(specs[..0])
  {
  }

  lemma {:induction false} PreparedKeys(specs: seq<Spec>, g: nat, id: string)
    ensures id in Prepared(specs, g) <==> exists k :: 0 <= k < |specs| && specs[k].id == id
  {
    if specs != [] {
      var n := |specs| - 1;
      PreparedKeys(specs[..n], g, id);
      assert forall k | 0 <= k < n :: specs[..n][k] == specs[k];
    }
  }

  lemma PreparedStep(specs: seq<Spec>, i: nat, g: nat)
    requires i < |specs|
    ensures Prepared(specs[..i + 1], g) == Prepared(specs[..i], g)[specs[i].id := Def(specs[i].id, specs[i].key, g)]
    ensures specs[i].id == "" || specs[i].id in Prepared(specs[..i], g) ==> !Acceptable(specs)
    ensures specs[i].id != "" && specs[i].id !in Prepared(specs[..i], g) && Acceptable(specs[..i]) ==>
            Acceptable(specs[..i + 1])
  {
    var next := specs[..i + 1];
    assert next[..i] == specs[..i] && next[i] == specs[i];
    PreparedKeys(specs[..i], g, specs[i].id);
    if specs[i].id in Prepared(specs[..i], g) {
      var k :| 0 <= k < i && specs[..i][k].id == specs[i].id;
      assert specs[k].id == specs[i].id;
    } else if specs[i].id != "" && Acceptable(specs[..i]) {
      forall a, b | 0 <= a < b < |next| ensures next[a].id != next[b].id {
        assert specs[..i][a] == next[a];
        if b < i { assert specs[..i][b] == next[b]; }
      }
      forall a | 0 <= a < |next| ensures next[a].id != "" {
        if a < i { assert specs[..i][a] == next[a]; }
      }
    }
  }
}
