/**
  Rule debounce (internal/rules) and its transactional persistence (internal/storage/rules.go):
  what a fired or resolved event says about the evaluations before it, over whole runs and across
  crashes.
 */
module Rules {
  import opened Options
  import Outbox

  // ---------------------------------------------------------------- evaluating a predicate

  datatype Truth = True | False | Unknown

  /** The kind of value a signal carries; Nothing is an absent or null one. */
  datatype Signal = Nothing | NumberValue | StringValue | BooleanValue | OtherValue

  /** A signal() call the expression made: the card, the signal, and its declared type. */
  datatype Ref = Ref(card: string, name: string, declared: string)

  /** ok is execution state "ok" with a document. */
  datatype Card = Card(ok: bool, signals: map<string, Signal>)

  datatype Evaluation = Evaluation(result: Truth, wrongTypes: seq<string>)

  function Reading(cards: map<string, Card>, r: Ref): Signal {
    if r.card in cards && cards[r.card].ok && r.name in cards[r.card].signals
    then cards[r.card].signals[r.name] else Nothing
  }

  function TypeOf(s: Signal): string {
    match s
    case NumberValue => "number"
    case StringValue => "string"
    case BooleanValue => "boolean"
    case OtherValue => ""
    case Nothing => ""
  }

  /** Present, fresh, and of its declared type. */
  predicate Usable(cards: map<string, Card>, r: Ref) {
    Reading(cards, r) != Nothing && r.declared in {"number", "string", "boolean"} &&
    r.declared == TypeOf(Reading(cards, r))
  }

  /** Present and fresh, but not of the type it was declared with. */
  predicate WrongType(cards: map<string, Card>, r: Ref) {
    Reading(cards, r) != Nothing && r.declared in {"number", "string", "boolean"} &&
    r.declared != TypeOf(Reading(cards, r))
  }

  /** The mistyped signals, in the order they were read. */
  function WrongNames(cards: map<string, Card>, calls: seq<Ref>): seq<string> {
    if calls == [] then []
    else
      var c := calls[|calls| - 1];
      WrongNames(cards, calls[..|calls| - 1]) + if WrongType(cards, c) then [c.card + "." + c.name] else []
  }

  lemma WrongNamesStep(cards: map<string, Card>, calls: seq<Ref>, i: nat)
    requires i < |calls|
    ensures WrongNames(cards, calls[..i + 1]) ==
            WrongNames(cards, calls[..i]) +
            if WrongType(cards, calls[i]) then [calls[i].card + "." + calls[i].name] else []
  {
    assert calls[..i + 1][..i] == calls[..i];
  }

  /** The signal() function an expression calls. */
  method ReadSignal(call: Ref, cards: map<string, Card>) returns (usable: bool, wrongType: bool)
    ensures usable <==> Usable(cards, call)
    ensures wrongType <==> WrongType(cards, call)
  {
    if call.card !in cards || !cards[call.card].ok { return false, false; }
    var card := cards[call.card];
    if call.name !in card.signals || card.signals[call.name] == Nothing { return false, false; }
    if call.declared !in {"number", "string", "boolean"} { return false, false; }
    if call.declared != TypeOf(card.signals[call.name]) { return false, true; }
    return true, false;
  }

  /**
    rules.Evaluate, given the signal() calls the expression made and what it returned (None for an
    error). The predicate is unknown as soon as one call was not usable, whatever it returned.
   */
  method Evaluate(calls: seq<Ref>, output: Option<bool>, cards: map<string, Card>)
    returns (r: Option<Evaluation>)
    ensures r.Some? && r.value.result == Unknown <==> exists i :: 0 <= i < |calls| && !Usable(cards, calls[i])
    ensures r.Some? && r.value.wrongTypes != [] ==> r.value.result == Unknown
    ensures r.Some? && r.value.result == Unknown ==> r.value.wrongTypes == WrongNames(cards, calls)
    ensures r.Some? && r.value.result != Unknown ==> output == Some(r.value.result == True)
    ensures r.None? ==> output.None?
  {
    hide Usable, WrongType, WrongNames;
    var unknown, wrongTypes := false, [];
    assert WrongNames(cards, calls[..0]) == [] by { NoWrongNames(cards, calls); }
    for i := 0 to |calls|
      invariant unknown <==> exists j :: 0 <= j < i && !Usable(cards, calls[j])
      invariant wrongTypes == WrongNames(cards, calls[..i])
    {
      WrongNamesStep(cards, calls, i);
      var usable, wrongType := ReadSignal(calls[i], cards);
      unknown := unknown || !usable;
      if wrongType { wrongTypes := wrongTypes + [calls[i].card + "." + calls[i].name]; }
    }
    assert calls[..|calls|] == calls;
    if unknown { return Some(Evaluation(Unknown, wrongTypes)); }
    if output.None? { return None; }
    return Some(Evaluation(if output.value then True else False, []));
  }

  lemma NoWrongNames(cards: map<string, Card>, calls: seq<Ref>)
    ensures WrongNames(cards, calls[..0]) == []
  {
  }

  /** What every evaluation satisfies. */
  predicate Proper(ev: Evaluation) { ev.wrongTypes != [] ==> ev.result == Unknown }

  // ---------------------------------------------------------------- one transition

  datatype Definition = Definition(id: string, hash: string, wait: nat, resolve: bool)

  datatype RuleState = RuleState(
    last: Truth, since: Option<int>, deadline: Option<int>,
    firedAt: Option<int>, resolvedAt: Option<int>, wrongType: bool)

  const FRESH := RuleState(Unknown, None, None, None, None, false)

  datatype EventKind = SignalType | Fired | Resolved

  /** The new state and at most one event. */
  datatype Transition = Transition(state: RuleState, event: Option<EventKind>)

  function Noted(st: RuleState, ev: Evaluation): Transition {
    if ev.wrongTypes != [] && !st.wrongType then Transition(st.(wrongType := true), Some(SignalType))
    else if ev.wrongTypes == [] then Transition(st.(wrongType := false), None)
    else Transition(st, None)
  }

  /** The debounce time is over; an unset deadline is the zero time, long past. */
  predicate Due(deadline: Option<int>, now: int) { deadline.None? || deadline.value <= now }

  /** evaluateLocked up to the commit. A later event replaces an earlier one, as in the code. */
  function Transit(d: Definition, st: RuleState, ev: Evaluation, now: int): Transition {
    var n := Noted(st, ev);
    var cur := n.state.(last := ev.result);
    match ev.result
    case True =>
      var armed := if cur.since.None? then cur.(since := Some(now), deadline := Some(now + d.wait)) else cur;
      if Due(armed.deadline, now) && armed.firedAt.None?
      then Transition(armed.(firedAt := Some(now), resolvedAt := None), Some(Fired))
      else Transition(armed, n.event)
    case False =>
      var reset := cur.(since := None, deadline := None);
      if cur.firedAt.Some?
      then Transition(reset.(resolvedAt := Some(now), firedAt := None), if d.resolve then Some(Resolved) else n.event)
      else Transition(reset, n.event)
    case Unknown => Transition(cur.(since := None, deadline := None), n.event)
  }

  // ---------------------------------------------------------------- whole runs

  datatype Input = Input(now: int, ev: Evaluation)

  predicate ProperRun(inputs: seq<Input>) { forall i | 0 <= i < |inputs| :: Proper(inputs[i].ev) }

  /** The state after a run of committed evaluations. */
  function After(d: Definition, inputs: seq<Input>): RuleState {
    if inputs == [] then FRESH
    else
      var n := |inputs| - 1;
      Transit(d, After(d, inputs[..n]), inputs[n].ev, inputs[n].now).state
  }

  /** The event the i-th evaluation committed, if any. */
  function EventAt(d: Definition, inputs: seq<Input>, i: nat): Option<EventKind>
    requires i < |inputs|
  {
    Transit(d, After(d, inputs[..i]), inputs[i].ev, inputs[i].now).event
  }

  /** The event log of a run. */
  function Events(d: Definition, inputs: seq<Input>): seq<EventKind> {
    if inputs == [] then []
    else
      var n := |inputs| - 1;
      var e := EventAt(d, inputs, n);
      Events(d, inputs[..n]) + if e.Some? then [e.value] else []
  }

  /** True at every evaluation from j up to n. */
  predicate TrueFrom(inputs: seq<Input>, j: nat, n: nat) {
    j < n <= |inputs| && forall k | j <= k < n :: inputs[k].ev.result == True
  }

  /** The debounce clock holds exactly the start of the current unbroken stretch of True. */
  lemma {:induction false} SinceIsStretch(d: Definition, inputs: seq<Input>) returns (j: nat)
    requires After(d, inputs).since.Some?
    ensures TrueFrom(inputs, j, |inputs|) && (j == 0 || inputs[j - 1].ev.result != True)
    ensures After(d, inputs).since == Some(inputs[j].now) && After(d, inputs).deadline == Some(inputs[j].now + d.wait)
  {
    var n := |inputs| - 1;
    var before := After(d, inputs[..n]);
    if before.since.Some? {
      j := SinceIsStretch(d, inputs[..n]);
      forall k | j <= k < |inputs| ensures inputs[k].ev.result == True {
        if k < n { assert inputs[..n][k] == inputs[k]; }
      }
      if j > 0 { assert inputs[..n][j - 1] == inputs[j - 1]; }
    } else {
      j := n;
    }
  }

  /**
    A rule fires only after its condition held for the whole debounce time: there is a stretch of
    committed evaluations, ending with this one, all True, that began at least `wait` earlier.
   */
  lemma {:induction false} FiredMeansHeld(d: Definition, inputs: seq<Input>, i: nat) returns (j: nat)
    requires i < |inputs| && EventAt(d, inputs, i) == Some(Fired)
    ensures TrueFrom(inputs, j, i + 1) && inputs[j].now + d.wait <= inputs[i].now
    ensures j == 0 || inputs[j - 1].ev.result != True
  {
    var run := inputs[..i + 1];
    assert run[..i] == inputs[..i];
    assert After(d, run) == Transit(d, After(d, inputs[..i]), inputs[i].ev, inputs[i].now).state;
    j := SinceIsStretch(d, run);
    forall k | j <= k < i + 1 ensures inputs[k].ev.result == True { assert run[k] == inputs[k]; }
    if j > 0 { assert run[j - 1] == inputs[j - 1]; }
  }

  /**
    And it does fire, once: such a stretch that lasts has a first evaluation that finds the time
    elapsed; the rule fires there if the stretch began with no alarm raised, and nowhere else in it.
   */
  lemma {:induction false} HeldMeansFired(d: Definition, inputs: seq<Input>, j: nat) returns (i: nat)
    requires inputs != [] && TrueFrom(inputs, j, |inputs|) && (j == 0 || inputs[j - 1].ev.result != True)
    requires inputs[j].now + d.wait <= inputs[|inputs| - 1].now
    ensures After(d, inputs).firedAt.Some?
    ensures j <= i < |inputs| && inputs[j].now + d.wait <= inputs[i].now
    ensures forall k | j <= k < i :: inputs[k].now < inputs[j].now + d.wait
    ensures EventAt(d, inputs, i) == Some(Fired) <==> After(d, inputs[..j]).firedAt.None?
    ensures forall k | j <= k < |inputs| && k != i :: EventAt(d, inputs, k) != Some(Fired)
  {
    i := j;
    while inputs[i].now < inputs[j].now + d.wait
      invariant j <= i < |inputs|
      invariant forall k | j <= k < i :: inputs[k].now < inputs[j].now + d.wait
      decreases |inputs| - i
    {
      i := i + 1;
    }
    hide After, EventAt;
    forall k | j <= k < |inputs|
      ensures EventAt(d, inputs, k) == Some(Fired) <==> k == i && After(d, inputs[..j]).firedAt.None?
      ensures After(d, inputs[..k + 1]).firedAt.Some? <==> k >= i || After(d, inputs[..j]).firedAt.Some?
    {
      StretchFires(d, inputs, j, i, k);
    }
    var last := |inputs| - 1;
    StretchFires(d, inputs, j, i, last);
    assert inputs[..last + 1] == inputs;
  }

  /** Evaluation by evaluation along the stretch. */
  lemma {:induction false} StretchFires(d: Definition, inputs: seq<Input>, j: nat, i: nat, k: nat)
    requires j <= k < |inputs| && j <= i && TrueFrom(inputs, j, k + 1) && (j == 0 || inputs[j - 1].ev.result != True)
    requires forall m | j <= m < |inputs| && m < i :: inputs[m].now < inputs[j].now + d.wait
    requires i < |inputs| ==> inputs[j].now + d.wait <= inputs[i].now
    ensures EventAt(d, inputs, k) == Some(Fired) <==> k == i && After(d, inputs[..j]).firedAt.None?
    ensures After(d, inputs[..k + 1]).firedAt.Some? <==> k >= i || After(d, inputs[..j]).firedAt.Some?
    decreases k
  {
    hide After, EventAt;
    var run := inputs[..k + 1];
    assert run[..k] == inputs[..k];
    if k > j { StretchFires(d, inputs, j, i, k - 1); }
    StretchIsSince(d, run, j);
    TrueStep(d, inputs, k);
  }

  lemma TrueStep(d: Definition, inputs: seq<Input>, k: nat)
    requires k < |inputs| && inputs[k].ev.result == True
    ensures var was, now := After(d, inputs[..k]), After(d, inputs[..k + 1]);
            (EventAt(d, inputs, k) == Some(Fired) <==> was.firedAt.None? && Due(now.deadline, inputs[k].now)) &&
            (now.firedAt.Some? <==> was.firedAt.Some? || Due(now.deadline, inputs[k].now))
  {
    assert inputs[..k + 1][..k] == inputs[..k];
  }

  lemma {:induction false} StretchIsSince(d: Definition, inputs: seq<Input>, j: nat)
    requires TrueFrom(inputs, j, |inputs|) && (j == 0 || inputs[j - 1].ev.result != True)
    ensures After(d, inputs).since == Some(inputs[j].now) && After(d, inputs).deadline == Some(inputs[j].now + d.wait)
  {
    var n := |inputs| - 1;
    assert inputs[n].ev.result == True;
    if j == n {
    } else {
      forall k | j <= k < n ensures inputs[..n][k].ev.result == True { assert inputs[..n][k] == inputs[k]; }
      if j > 0 { assert inputs[..n][j - 1] == inputs[j - 1]; }
      StretchIsSince(d, inputs[..n], j);
    }
  }

  /** Only True fires, only False resolves; Unknown does neither. */
  lemma EventNeedsResult(d: Definition, st: RuleState, ev: Evaluation, now: int)
    ensures Transit(d, st, ev, now).event == Some(Fired) ==> ev.result == True && st.firedAt.None?
    ensures Transit(d, st, ev, now).event == Some(Resolved) ==> ev.result == False && st.firedAt.Some?
    ensures ev.result == Unknown ==> Transit(d, st, ev, now).state.firedAt == st.firedAt
    ensures Transit(d, st, ev, now).state.firedAt.Some? && st.firedAt.None? ==>
              Transit(d, st, ev, now).event == Some(Fired)
    ensures st.firedAt.Some? && Transit(d, st, ev, now).state.firedAt.None? ==> ev.result == False
  {
  }

  /** With resolve set, fired and resolved are exactly the changes of FiredAt. */
  lemma EventIsFiredAtChange(d: Definition, st: RuleState, ev: Evaluation, now: int)
    requires d.resolve && Proper(ev)
    ensures var t := Transit(d, st, ev, now);
            (t.event == Some(Fired) <==> st.firedAt.None? && t.state.firedAt.Some?) &&
            (t.event == Some(Resolved) <==> st.firedAt.Some? && t.state.firedAt.None?)
  {
  }

  /** A wrong-type event is never replaced by a fired or resolved one, nor is one invented. */
  lemma WrongTypeEventSurvives(d: Definition, st: RuleState, ev: Evaluation, now: int)
    requires Proper(ev)
    ensures ev.wrongTypes != [] && !st.wrongType ==> Transit(d, st, ev, now).event == Some(SignalType)
    ensures Transit(d, st, ev, now).event == Some(SignalType) <==> ev.wrongTypes != [] && !st.wrongType
  {
  }

  /** Between two firings the condition was seen False. */
  lemma {:induction false} RefireNeedsFalse(d: Definition, inputs: seq<Input>, i: nat, k: nat) returns (m: nat)
    requires i < k < |inputs| && EventAt(d, inputs, i) == Some(Fired) && EventAt(d, inputs, k) == Some(Fired)
    ensures i < m < k && inputs[m].ev.result == False
  {
    var run := inputs[..i + 1];
    assert run[..i] == inputs[..i];
    assert After(d, run).firedAt.Some?;
    EventNeedsResult(d, After(d, inputs[..k]), inputs[k].ev, inputs[k].now);
    m := ClearedByFalse(d, inputs, i + 1, k);
  }

  lemma {:induction false} ClearedByFalse(d: Definition, inputs: seq<Input>, a: nat, b: nat) returns (m: nat)
    requires a <= b <= |inputs| && After(d, inputs[..a]).firedAt.Some? && After(d, inputs[..b]).firedAt.None?
    ensures a <= m < b && inputs[m].ev.result == False
    decreases b
  {
    var n := b - 1;
    assert inputs[..b][..n] == inputs[..n];
    if After(d, inputs[..n]).firedAt.Some? {
      EventNeedsResult(d, After(d, inputs[..n]), inputs[n].ev, inputs[n].now);
      m := n;
    } else {
      m := ClearedByFalse(d, inputs, a, n);
    }
  }

  function Count(events: seq<EventKind>, k: EventKind): nat {
    if events == [] then 0 else Count(events[..|events| - 1], k) + if events[|events| - 1] == k then 1 else 0
  }

  lemma CountEmpty()
    ensures Count([], Fired) == 0 && Count([], Resolved) == 0
  {
  }

  lemma CountAppend(events: seq<EventKind>, e: Option<EventKind>, k: EventKind)
    ensures Count(events + (if e.Some? then [e.value] else []), k) == Count(events, k) + if e == Some(k) then 1 else 0
  {
    if e.Some? {
      var all := events + [e.value];
      assert all[..|all| - 1] == events;
    } else {
      assert events + [] == events;
    }
  }

  /** With resolve set, fired and resolved events pair up: one open alarm exactly while FiredAt is set. */
  lemma {:induction false} FiredMinusResolved(d: Definition, inputs: seq<Input>)
    requires d.resolve && ProperRun(inputs)
    ensures Count(Events(d, inputs), Fired) - Count(Events(d, inputs), Resolved) ==
            if After(d, inputs).firedAt.Some? then 1 else 0
  {
    hide Transit, Count;
    if inputs == [] {
      assert Count([], Fired) == 0 && Count([], Resolved) == 0 by { CountEmpty(); }
    } else {
      var n := |inputs| - 1;
      assert Proper(inputs[n].ev);
      EventIsFiredAtChange(d, After(d, inputs[..n]), inputs[n].ev, inputs[n].now);
      forall i | 0 <= i < n ensures Proper(inputs[..n][i].ev) { assert inputs[..n][i] == inputs[i]; }
      FiredMinusResolved(d, inputs[..n]);
      CountAppend(Events(d, inputs[..n]), EventAt(d, inputs, n), Fired);
      CountAppend(Events(d, inputs[..n]), EventAt(d, inputs, n), Resolved);
    }
  }

  // ---------------------------------------------------------------- crashes

  /** The stored row keeps the hash it was written under. */
  datatype Row = Row(hash: string, state: RuleState)

  /** Tables, and the manager's copy of the state, absent after a crash. */
  datatype System = System(row: Option<Row>, events: seq<EventKind>, memory: Option<RuleState>)

  /**
    What can happen around one rule: an evaluation whose transaction commits, one whose transaction
    fails, one that commits just before the process dies, a crash at rest, and a restart.
   */
  datatype Happening =
    | Committed(input: Input) | RolledBack(input: Input) | CommittedThenCrash(input: Input) | Crash | Restart

  /** Manager.Apply: the persisted state if its hash still matches, else a fresh one. */
  function Restored(d: Definition, row: Option<Row>): RuleState {
    if row.Some? && row.value.hash == d.hash then row.value.state else FRESH
  }

  /** CommitRuleTransition: the event and the state in one transaction. */
  function Commit(d: Definition, sys: System, t: Transition): System {
    sys.(row := Some(Row(d.hash, t.state)), events := sys.events + if t.event.Some? then [t.event.value] else [])
  }

  function Happens(d: Definition, sys: System, h: Happening): System {
    match h
    case Committed(input) =>
      if sys.memory.None? then sys
      else
        var t := Transit(d, sys.memory.value, input.ev, input.now);
        Commit(d, sys, t).(memory := Some(t.state))
    case RolledBack(_) => sys
    case CommittedThenCrash(input) =>
      if sys.memory.None? then sys
      else Commit(d, sys, Transit(d, sys.memory.value, input.ev, input.now)).(memory := None)
    case Crash => sys.(memory := None)
    case Restart => sys.(memory := Some(Restored(d, sys.row)))
  }

  function HappensAll(d: Definition, sys: System, hs: seq<Happening>): System {
    if hs == [] then sys else Happens(d, HappensAll(d, sys, hs[..|hs| - 1]), hs[|hs| - 1])
  }

  /** The evaluations that took effect: committed while the manager was up. */
  function Effective(d: Definition, sys: System, hs: seq<Happening>): seq<Input> {
    if hs == [] then []
    else
      var n := |hs| - 1;
      var before := HappensAll(d, sys, hs[..n]);
      Effective(d, sys, hs[..n]) +
      if (hs[n].Committed? || hs[n].CommittedThenCrash?) && before.memory.Some? then [hs[n].input] else []
  }

  const EMPTY := System(None, [], None)

  /**
    Crash refinement: with crashes, restarts and failed transactions anywhere, the event log and the
    stored state are those of the same effective evaluations run without interruption, and the
    manager's copy, when there is one, is the stored state.
   */
  lemma {:induction false} CrashesChangeNothing(d: Definition, hs: seq<Happening>)
    ensures var sys := HappensAll(d, EMPTY, hs);
            var inputs := Effective(d, EMPTY, hs);
            sys.events == Events(d, inputs) && Restored(d, sys.row) == After(d, inputs) &&
            (sys.row.None? || sys.row.value.hash == d.hash) &&
            (sys.memory.Some? ==> sys.memory.value == After(d, inputs))
  {
    if hs != [] {
      var n := |hs| - 1;
      CrashesChangeNothing(d, hs[..n]);
      var inputs := Effective(d, EMPTY, hs[..n]);
      if hs[n].Committed? || hs[n].CommittedThenCrash? {
        assert (inputs + [hs[n].input])[..|inputs|] == inputs;
      } else {
        assert inputs + [] == inputs;
      }
    }
  }

  predicate ProperHappenings(hs: seq<Happening>) {
    forall i | 0 <= i < |hs| && (hs[i].Committed? || hs[i].CommittedThenCrash?) :: Proper(hs[i].input.ev)
  }

  lemma {:induction false} EffectiveProper(d: Definition, hs: seq<Happening>)
    requires ProperHappenings(hs)
    ensures ProperRun(Effective(d, EMPTY, hs))
  {
    hide HappensAll;
    if hs != [] {
      var n := |hs| - 1;
      assert ProperHappenings(hs[..n]);
      EffectiveProper(d, hs[..n]);
    }
  }

  /** So the log pairs up after any crashes too: one open alarm exactly while the stored FiredAt is set. */
  lemma {:induction false} LogBalances(d: Definition, hs: seq<Happening>)
    requires d.resolve && ProperHappenings(hs)
    ensures var sys := HappensAll(d, EMPTY, hs);
            Count(sys.events, Fired) - Count(sys.events, Resolved) ==
            if Restored(d, sys.row).firedAt.Some? then 1 else 0
  {
    hide HappensAll, Effective, Events, After, Count;
    CrashesChangeNothing(d, hs);
    EffectiveProper(d, hs);
    FiredMinusResolved(d, Effective(d, EMPTY, hs));
  }

  // ---------------------------------------------------------------- the code

  datatype Logged = Logged(rule: string, kind: EventKind, at: int)

  /** Requests put to the outbox one after another. */
  function EnqueueAll(box: Outbox.Box, requests: seq<Outbox.Request>): Outbox.Box {
    if requests == [] then box
    else Outbox.AfterEnqueue(EnqueueAll(box, requests[..|requests| - 1]), requests[|requests| - 1])
  }

  lemma EnqueueAllStep(box: Outbox.Box, requests: seq<Outbox.Request>, i: nat)
    requires i < |requests|
    ensures var before, after := EnqueueAll(box, requests[..i]), EnqueueAll(box, requests[..i + 1]);
            after == Outbox.AfterEnqueue(before, requests[i]) &&
            |after.rows| == |before.rows| + if Outbox.Judge(before, requests[i]) == Outbox.Inserts then 1 else 0
  {
    hide Outbox.Judge;
    assert requests[..i + 1][..i] == requests[..i];
  }

  /** Only a fired or resolved event is announced. */
  predicate Alerting(e: Option<EventKind>) { e == Some(Fired) || e == Some(Resolved) }

  class Store {
    var rows: map<string, Row>
    var events: seq<Logged>
    var box: Outbox.Box

    constructor ()
      ensures rows == map[] && events == [] && box == Outbox.EMPTY.box
    {
      rows, events, box := map[], [], Outbox.EMPTY.box;
    }

    /**
      storage.CommitRuleTransition: notifications, event and state in one transaction; `ok` is whether
      it commits. It reports whether there is something new to deliver.
     */
    method CommitRuleTransition(
        id: string, hash: string, t: Transition, at: int, notifications: seq<Outbox.Request>, ok: bool)
      returns (wake: bool)
      modifies this
      ensures !ok ==> rows == old(rows) && events == old(events) && box == old(box) && !wake
      ensures ok ==> rows == old(rows)[id := Row(hash, t.state)]
      ensures ok ==> events == old(events) + if t.event.Some? then [Logged(id, t.event.value, at)] else []
      ensures ok ==> box == EnqueueAll(old(box), notifications) && (wake <==> |box.rows| > |old(box).rows|)
    {
      hide EnqueueAll, Outbox.Judge, Outbox.AfterEnqueue;
      wake := false;
      if !ok { return; }
      assert EnqueueAll(box, notifications[..0]) == box by { NothingEnqueued(box, notifications); }
      for i := 0 to |notifications|
        invariant rows == old(rows) && events == old(events)
        invariant box == EnqueueAll(old(box), notifications[..i])
        invariant |box.rows| >= |old(box).rows| && (wake <==> |box.rows| > |old(box).rows|)
      {
        EnqueueAllStep(old(box), notifications, i);
        wake := wake || Outbox.Judge(box, notifications[i]) == Outbox.Inserts;
        box := Outbox.AfterEnqueue(box, notifications[i]);
      }
      assert notifications[..|notifications|] == notifications;
      if t.event.Some? { events := events + [Logged(id, t.event.value, at)]; }
      rows := rows[id := Row(hash, t.state)];
    }

    method GetRuleState(id: string, hash: string) returns (st: Option<RuleState>)
      ensures st == if id in rows && rows[id].hash == hash then Some(rows[id].state) else None
    {
      if id !in rows { return None; }
      if rows[id].hash != hash { return None; }
      return Some(rows[id].state);
    }
  }

  lemma NothingEnqueued(box: Outbox.Box, requests: seq<Outbox.Request>)
    ensures EnqueueAll(box, requests[..0]) == box
  {
  }

  /** One rule's part of the event log. */
  function EventsFor(events: seq<Logged>, id: string): seq<EventKind> {
    if events == [] then []
    else
      var e := events[|events| - 1];
      EventsFor(events[..|events| - 1], id) + if e.rule == id then [e.kind] else []
  }

  lemma EventsForPush(events: seq<Logged>, id: string, e: Option<EventKind>, at: int)
    ensures EventsFor(events + (if e.Some? then [Logged(id, e.value, at)] else []), id) ==
            EventsFor(events, id) + if e.Some? then [e.value] else []
  {
    if e.Some? {
      var all := events + [Logged(id, e.value, at)];
      assert all[..|all| - 1] == events;
    } else {
      assert events + [] == events;
    }
  }

  /** Waiting for its deadline. */
  predicate PendingRule(st: RuleState) { st.since.Some? && st.firedAt.None? }

  predicate DistinctIds(defs: seq<Definition>) {
    forall i, j | 0 <= i < j < |defs| :: defs[i].id != defs[j].id
  }

  function ById(defs: seq<Definition>): map<string, Definition> {
    if defs == [] then map[]
    else var d := defs[|defs| - 1]; ById(defs[..|defs| - 1])[d.id := d]
  }

  lemma {:induction false} ByIdKeys(defs: seq<Definition>, id: string)
    ensures id in ById(defs) <==> exists k :: 0 <= k < |defs| && defs[k].id == id
  {
    if defs != [] {
      var n := |defs| - 1;
      ByIdKeys(defs[..n], id);
      assert forall k | 0 <= k < n :: defs[..n][k] == defs[k];
    }
  }

  /** Definitions with distinct identifiers can all be looked up. */
  lemma {:induction false} ByIdFinds(defs: seq<Definition>, k: nat)
    requires k < |defs| && DistinctIds(defs)
    ensures defs[k].id in ById(defs) && ById(defs)[defs[k].id] == defs[k]
  {
    var n := |defs| - 1;
    if k < n {
      assert defs[k].id != defs[n].id;
      ByIdFinds(defs[..n], k);
    }
  }

  lemma ByIdStep(defs: seq<Definition>, i: nat)
    requires i < |defs|
    ensures ById(defs[..i + 1]) == ById(defs[..i])[defs[i].id := defs[i]]
    ensures defs[i].id in ById(defs[..i]) ==> !DistinctIds(defs)
    ensures defs[i].id !in ById(defs[..i]) && DistinctIds(defs[..i]) ==> DistinctIds(defs[..i + 1])
  {
    var next := defs[..i + 1];
    assert next[..i] == defs[..i] && next[i] == defs[i];
    ByIdKeys(defs[..i], defs[i].id);
    if defs[i].id in ById(defs[..i]) {
      var k :| 0 <= k < i && defs[..i][k].id == defs[i].id;
      assert defs[k].id == defs[i].id;
    } else if DistinctIds(defs[..i]) {
      forall a, b | 0 <= a < b < |next| ensures next[a].id != next[b].id {
        assert defs[..i][a] == next[a];
        if b < i { assert defs[..i][b] == next[b]; }
      }
    }
  }

  /** The states Apply starts the rules in. */
  function Restoration(defs: map<string, Definition>, rows: map<string, Row>): map<string, RuleState> {
    map id | id in defs :: Restored(defs[id], if id in rows then Some(rows[id]) else None)
  }

  class Manager {
    const store: Store
    var definitions: map<string, Definition>
    var states: map<string, RuleState>
    /** Wake-up times. */
    var timers: map<string, int>

    constructor (store: Store)
      ensures this.store == store && definitions == map[] && states == map[] && timers == map[]
    {
      this.store := store;
      definitions, states, timers := map[], map[], map[];
    }

    /** What the manager holds is what a restart would restore. */
    ghost predicate Synced()
      reads this, store
    {
      states == Restoration(definitions, store.rows)
    }

    /** One rule as the crash model sees it. */
    ghost function View(id: string): System
      reads this, store
    {
      System(if id in store.rows then Some(store.rows[id]) else None, EventsFor(store.events, id),
             if id in states then Some(states[id]) else None)
    }

    /** Manager.Apply. */
    method Apply(defs: seq<Definition>) returns (ok: bool)
      modifies this
      ensures ok <==> DistinctIds(defs)
      ensures !ok ==> definitions == old(definitions) && states == old(states) && timers == old(timers)
      ensures ok ==> Synced() && timers == map[] && definitions == ById(defs)
    {
      var newDefs: map<string, Definition>, newStates: map<string, RuleState> := map[], map[];
      for i := 0 to |defs|
        invariant unchanged(this)
        invariant DistinctIds(defs[..i]) && newDefs == ById(defs[..i])
        invariant newStates == Restoration(newDefs, store.rows)
      {
        hide DistinctIds, ById;
        var d := defs[i];
        ByIdStep(defs, i);
        if d.id in newDefs { return false; }
        var persisted := store.GetRuleState(d.id, d.hash);
        newDefs := newDefs[d.id := d];
        var start := if persisted.None? then FRESH else persisted.value;
        assert start == Restored(d, if d.id in store.rows then Some(store.rows[d.id]) else None);
        newStates := newStates[d.id := start];
      }
      assert defs[..|defs|] == defs;
      definitions, states, timers := newDefs, newStates, map[];
      return true;
    }

    /** The part of evaluateLocked before the commit; wake is the timer it sets, if any. */
    method Decide(d: Definition, st: RuleState, ev: Evaluation, now: int) returns (t: Transition, wake: Option<int>)
      ensures t == Transit(d, st, ev, now)
      ensures wake.Some? <==> PendingRule(t.state)
      ensures wake.Some? ==> wake == t.state.deadline
    {
      var current, event: Option<EventKind> := st, None;
      wake := None;
      if ev.wrongTypes != [] && !current.wrongType {
        event := Some(SignalType);
        current := current.(wrongType := true);
      } else if ev.wrongTypes == [] {
        current := current.(wrongType := false);
      }
      match ev.result {
        case True =>
          if current.since.None? {
            current := current.(since := Some(now), deadline := Some(now + d.wait));
          }
          if Due(current.deadline, now) && current.firedAt.None? {
            event := Some(Fired);
            current := current.(firedAt := Some(now), resolvedAt := None);
          } else if current.firedAt.None? {
            wake := current.deadline;
          }
        case False =>
          current := current.(since := None, deadline := None);
          if current.firedAt.Some? {
            if d.resolve { event := Some(Resolved); }
            current := current.(resolvedAt := Some(now), firedAt := None);
          }
        case Unknown =>
          current := current.(since := None, deadline := None);
      }
      current := current.(last := ev.result);
      t := Transition(current, event);
    }

    /**
      evaluateLocked: the manager's copy moves only when the transaction commits. `alerts` is what
      PrepareRuleAlert makes of an alert for this rule.
     */
    method EvaluateLocked(id: string, ev: Evaluation, now: int, alerts: seq<Outbox.Request>, commits: bool)
      requires Synced()
      modifies this`states, this`timers, store
      ensures Synced()
      ensures id !in definitions || !commits ==>
                states == old(states) && store.rows == old(store.rows) && store.events == old(store.events) &&
                store.box == old(store.box)
      ensures id in definitions && commits ==>
                var t := Transit(definitions[id], old(states)[id], ev, now);
                states == old(states)[id := t.state] &&
                store.events == old(store.events) + (if t.event.Some? then [Logged(id, t.event.value, now)] else []) &&
                store.box == EnqueueAll(old(store.box), if Alerting(t.event) then alerts else []) &&
                (id in timers <==> PendingRule(t.state)) && (id in timers ==> Some(timers[id]) == t.state.deadline)
      ensures timers - {id} == old(timers) - {id}
      ensures id in definitions ==>
                View(id) ==
                Happens(definitions[id], old(View(id)),
                        if commits then Committed(Input(now, ev)) else RolledBack(Input(now, ev)))
    {
      hide Transit, PendingRule, EventsFor, EnqueueAll;
      if id !in definitions { return; }
      var d := definitions[id];
      var t, wake := Decide(d, states[id], ev, now);
      EventsForPush(store.events, id, t.event, now);
      timers := timers - {id};
      if wake.Some? { timers := timers[id := wake.value]; }
      var notifications := if Alerting(t.event) then alerts else [];
      var _ := store.CommitRuleTransition(id, d.hash, t, now, notifications, commits);
      if !commits { return; }
      states := states[id := t.state];
      assert Restored(d, Some(Row(d.hash, t.state))) == t.state;
    }

    /**
      evaluateAll over the rules in the map's iteration order, stopping at the first that fails:
      each rule moves on its own evaluation, those from the failing one on do not move at all.
     */
    method EvaluateAll(
        order: seq<string>, evs: map<string, Evaluation>, times: map<string, int>,
        alerts: map<string, seq<Outbox.Request>>, failing: set<string>)
      returns (done: nat)
      requires Synced()
      requires forall i | 0 <= i < |order| ::
                 order[i] in definitions && order[i] in evs && order[i] in times && order[i] in alerts
      requires forall i, j | 0 <= i < j < |order| :: order[i] != order[j]
      modifies this`states, this`timers, store
      ensures Synced() && done <= |order|
      ensures forall i | 0 <= i < done :: order[i] !in failing
      ensures done < |order| ==> order[done] in failing
      ensures forall i | 0 <= i < |order| ::
                states[order[i]] ==
                if i < done
                  then Transit(definitions[order[i]], old(states)[order[i]], evs[order[i]], times[order[i]]).state
                else old(states)[order[i]]
    {
      hide Transit, Happens, EventsFor, EnqueueAll, PendingRule, Alerting;
      done := 0;
      while done < |order|
        invariant Synced() && done <= |order|
        invariant forall i | 0 <= i < done :: order[i] !in failing
        invariant forall i | 0 <= i < |order| ::
                    states[order[i]] ==
                    if i < done
                      then Transit(definitions[order[i]], old(states)[order[i]], evs[order[i]], times[order[i]]).state
                    else old(states)[order[i]]
      {
        var id := order[done];
        EvaluateLocked(id, evs[id], times[id], alerts[id], id !in failing);
        if id in failing { return; }
        done := done + 1;
      }
    }
  }
}
