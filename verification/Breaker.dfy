/**
  The card state envelope (internal/state/cardstate.go) and the refresh path with its circuit
  breaker (internal/scheduler/scheduler.go), for one card of one configuration generation.
  Times are nanoseconds since Go's zero time, which is therefore 0.
 */
module Breaker {
  import Downsample
  import opened Durations
  import opened Options

  const MAX_HISTORY_SIGNALS: nat := 16

  // ---------------------------------------------------------------- card states

  /** The integration's half of a card, opaque here. */
  datatype Document = Document(text: string)

  type History = map<string, seq<Downsample.Point>>

  datatype ExecutionState = PendingState | OkState | StaleState | ErrorState | DisabledState

  datatype RunError = RunError(code: string, message: string, at: Option<nat>)

  datatype Execution = Execution(
    state: ExecutionState, generatedAt: Option<nat>, ttlSeconds: int, expiresAt: Option<nat>, staleSince: Option<nat>,
    durationMs: int, failures: int, nextRunAt: Option<nat>, error: Option<RunError>, disabledReason: string,
    circuitOpenUntil: Option<nat>)

  datatype CardState = CardState(document: Option<Document>, execution: Execution, history: History)

  function Blank(state: ExecutionState): Execution {
    Execution(state, None, 0, None, None, 0, 0, None, None, "", None)
  }

  function Pending(): CardState { CardState(None, Blank(PendingState), map[]) }

  function Ok(doc: Document, now: nat, ttl: nat, duration: int): CardState {
    CardState(Some(doc),
              Blank(OkState).(generatedAt := Some(now), ttlSeconds := ttl / SECOND, expiresAt := Some(now + ttl),
                              durationMs := duration),
              map[])
  }

  /** nextRunAtOrEmpty. */
  function OrEmpty(t: nat): Option<nat> { if t == 0 then None else Some(t) }

  function Stale(doc: Document, generatedAt: nat, staleSince: nat, failures: int, nextRunAt: nat): CardState {
    CardState(Some(doc),
              Blank(StaleState).(generatedAt := Some(generatedAt), staleSince := Some(staleSince), failures := failures,
                                 nextRunAt := OrEmpty(nextRunAt)),
              map[])
  }

  function Stamped(e: RunError, now: nat): RunError { if e.at.None? then e.(at := Some(now)) else e }

  function StaleAfterError(doc: Document, generatedAt: nat, staleSince: nat, failures: int,
                           nextRunAt: nat, e: RunError, now: nat): CardState
  {
    var cs := Stale(doc, generatedAt, staleSince, failures, nextRunAt);
    cs.(execution := cs.execution.(error := Some(Stamped(e, now))))
  }

  function StaleAfterErrorWithOpenCircuit(doc: Document, generatedAt: nat, staleSince: nat, failures: int,
                                          open: nat, e: RunError, now: nat): CardState
  {
    var cs := StaleAfterError(doc, generatedAt, staleSince, failures, open, e, now);
    cs.(execution := cs.execution.(circuitOpenUntil := Some(open)))
  }

  function Error(e: RunError, now: nat): CardState {
    CardState(None, Blank(ErrorState).(error := Some(Stamped(e, now))), map[])
  }

  function ErrorWithOpenCircuit(e: RunError, open: nat, now: nat): CardState {
    var cs := Error(e, now);
    cs.(execution := cs.execution.(nextRunAt := Some(open), circuitOpenUntil := Some(open)))
  }

  function Disabled(reason: string): CardState {
    CardState(None, Blank(DisabledState).(disabledReason := reason), map[])
  }

  predicate ValidHistory(h: History) {
    |h| <= MAX_HISTORY_SIGNALS && forall name | name in h :: |h[name]| <= Downsample.MAX_HISTORY_POINTS
  }

  /** CardState.Validate accepts. */
  predicate Valid(c: CardState) {
    var e := c.execution;
    (match e.state
     case PendingState =>
       c.document == None && e.generatedAt == None && e.expiresAt == None && e.staleSince == None && e.error == None &&
       e.circuitOpenUntil == None
     case OkState =>
       c.document != None && e.generatedAt != None && e.ttlSeconds != 0 && e.expiresAt != None &&
       e.error == None && e.staleSince == None && e.disabledReason == "" && e.circuitOpenUntil == None
     case StaleState =>
       c.document != None && e.generatedAt != None && e.staleSince != None && e.disabledReason == ""
     case ErrorState => c.document == None && e.error != None && e.disabledReason == ""
     case DisabledState => e.disabledReason != "" && e.nextRunAt == None && e.circuitOpenUntil == None) &&
    (e.circuitOpenUntil != None ==> e.nextRunAt != None) &&
    ValidHistory(c.history)
  }

  // ---------------------------------------------------------------- durations

  /** What the n-th failure in a row waits: the refresh interval doubled n - 1 times, at most an hour. */
  function Backoff(n: nat, base: int): nat {
    Min((if base <= 0 then SECOND else base) * Power(if n == 0 then 0 else n - 1), HOUR)
  }

  /** backoff: a doubling loop that never leaves the 64-bit range. */
  method ComputeBackoff(n: int, interval: int) returns (wait: nat)
    requires interval <= MAX_INT64
    ensures wait == Backoff(if n < 0 then 0 else n, interval)
  {
    var base := if interval <= 0 then SECOND else interval;
    ghost var start := base;
    wait := base;
    var i := 1;
    while i < n && wait < HOUR
      invariant 1 <= i && (i <= n || i == 1)
      invariant wait == start * Power(i - 1) <= MAX_INT64
    {
      PowerStep(start, i - 1);
      assert wait * 2 <= MAX_INT64;
      wait := wait * 2;
      i := i + 1;
    }
    if i < n { PowerGrows(start, i - 1, n - 1); }
    if HOUR < wait { wait := HOUR; }
  }

  lemma BackoffPositive(n: nat, base: int)
    ensures 0 < Backoff(n, base) <= HOUR
  {
    var b := if base <= 0 then SECOND else base;
    PowerGrows(b, 0, if n == 0 then 0 else n - 1);
  }

  /** Two's-complement multiplication of a 64-bit duration. */
  function Wrap64(x: int): int {
    var m := x % 0x1_0000_0000_0000_0000;
    if m > MAX_INT64 then m - 0x1_0000_0000_0000_0000 else m
  }

  /** The effective time to live: the interval, shortened by the document's hint, never under a second. */
  function Ttl(refresh: int, hint: Option<int>): (ttl: nat)
    ensures SECOND <= ttl <= Max(refresh, SECOND)
    ensures hint.Some? && 0 < hint.value && hint.value * SECOND <= Min(refresh, MAX_INT64) ==>
            ttl == hint.value * SECOND
    ensures hint.None? || hint.value <= 0 ==> ttl == Max(refresh, SECOND)
  {
    var hinted := if hint.Some? then Wrap64(hint.value * SECOND) else 0;
    var ttl := if hint.Some? && hint.value > 0 && hinted < refresh then hinted else refresh;
    if ttl < SECOND then SECOND else ttl
  }

  // ---------------------------------------------------------------- one refresh

  datatype Definition = Definition(refresh: int, disabled: string, runnable: bool)

  /** A run's outcome; history is None when reading it back failed. */
  datatype Outcome =
    | Succeeded(doc: Document, hint: Option<int>, at: nat, duration: int, history: Option<History>)
    | Failed(error: RunError)

  /** One call of refresh with the clock readings it takes; stored is whether the store accepts the commit. */
  datatype Attempt = Attempt(
    check: nat, outcome: Outcome, retryFrom: nat, openFrom: nat, staleAt: nat, errorAt: nat, stored: bool)

  /** The manager's record of the card. */
  datatype Card = Card(failures: nat, open: Option<nat>, state: CardState)

  function Start(): Card { Card(0, None, Pending()) }

  /** refresh goes as far as running the card. */
  predicate Runs(d: Definition, c: Card, a: Attempt) {
    d.disabled == "" && !(c.open.Some? && a.check < c.open.value) && d.runnable
  }

  /** A run that counts as a success, and one that counts as a failure. */
  predicate Succeeds(d: Definition, c: Card, a: Attempt) {
    Runs(d, c, a) && a.outcome.Succeeded? && a.outcome.history.Some?
  }

  predicate Fails(d: Definition, c: Card, a: Attempt) { Runs(d, c, a) && a.outcome.Failed? }

  function OpenTime(d: Definition, n: nat, a: Attempt): nat {
    a.openFrom + Min(5 * MINUTE, Backoff(n, d.refresh))
  }

  /** The state a failed run shows. */
  function FailureState(d: Definition, c: Card, a: Attempt): CardState
    requires a.outcome.Failed?
  {
    var n, e := c.failures + 1, a.outcome.error;
    var generatedAt := if c.state.execution.generatedAt.Some? then c.state.execution.generatedAt.value else 0;
    match c.state.document
    case Some(doc) =>
      (if n >= 3 then StaleAfterErrorWithOpenCircuit(doc, generatedAt, a.staleAt, n, OpenTime(d, n, a), e, a.errorAt)
       else StaleAfterError(doc, generatedAt, a.staleAt, n, a.retryFrom + Backoff(n, d.refresh), e, a.errorAt))
      .(history := c.state.history)
    case None =>
      if n >= 3 then ErrorWithOpenCircuit(e, OpenTime(d, n, a), a.errorAt)
      else
        var cs := Error(e, a.errorAt);
        cs.(execution := cs.execution.(failures := n, nextRunAt := Some(a.retryFrom + Backoff(n, d.refresh))))
  }

  function SuccessState(d: Definition, a: Attempt): CardState
    requires a.outcome.Succeeded? && a.outcome.history.Some?
  {
    var o := a.outcome;
    Ok(o.doc, o.at, Ttl(d.refresh, o.hint), o.duration).(history := o.history.value)
  }

  /** The state refresh tries to commit, if it gets that far. */
  function Built(d: Definition, c: Card, a: Attempt): Option<CardState> {
    if d.disabled != "" then Some(Disabled(d.disabled))
    else if c.open.Some? && a.check < c.open.value then None
    else if !d.runnable then Some(Disabled("config-error"))
    else if a.outcome.Failed? then Some(FailureState(d, c, a))
    else if a.outcome.history.None? then None
    else Some(SuccessState(d, a))
  }

  function Refresh(d: Definition, c: Card, a: Attempt): Card {
    var built := Built(d, c, a);
    var shown := if built.Some? && Valid(built.value) && a.stored then built.value else c.state;
    if Succeeds(d, c, a) then Card(0, None, shown)
    else if Fails(d, c, a) then
      var n := c.failures + 1;
      Card(n, if n >= 3 then Some(OpenTime(d, n, a)) else c.open, shown)
    else c.(state := shown)
  }

  function After(d: Definition, attempts: seq<Attempt>): Card {
    if attempts == [] then Start()
    else
      var n := |attempts| - 1;
      Refresh(d, After(d, attempts[..n]), attempts[n])
  }

  // ---------------------------------------------------------------- the failure count

  predicate SucceededAt(d: Definition, attempts: seq<Attempt>, i: nat)
    requires i < |attempts|
  {
    Succeeds(d, After(d, attempts[..i]), attempts[i])
  }

  predicate FailedAt(d: Definition, attempts: seq<Attempt>, i: nat)
    requires i < |attempts|
  {
    Fails(d, After(d, attempts[..i]), attempts[i])
  }

  /** Failed runs from attempt j on. */
  function FailuresFrom(d: Definition, attempts: seq<Attempt>, j: nat): nat
    requires j <= |attempts|
  {
    if j == |attempts| then 0
    else
      var n := |attempts| - 1;
      FailuresFrom(d, attempts[..n], j) + if FailedAt(d, attempts, n) then 1 else 0
  }

  /** j is just after the last success, or the start. */
  predicate SinceSuccess(d: Definition, attempts: seq<Attempt>, j: nat) {
    j <= |attempts| && (j == 0 || SucceededAt(d, attempts, j - 1)) &&
    forall i | j <= i < |attempts| :: !SucceededAt(d, attempts, i)
  }

  lemma PrefixAt(d: Definition, attempts: seq<Attempt>, n: nat, i: nat)
    requires i < n <= |attempts|
    ensures SucceededAt(d, attempts[..n], i) == SucceededAt(d, attempts, i)
    ensures FailedAt(d, attempts[..n], i) == FailedAt(d, attempts, i)
  {
    assert attempts[..n][..i] == attempts[..i] && attempts[..n][i] == attempts[i];
  }

  /** In every run the failure count is the number of failed runs since the last success. */
  lemma {:induction false} FailureCount(d: Definition, attempts: seq<Attempt>, j: nat)
    requires SinceSuccess(d, attempts, j)
    ensures After(d, attempts).failures == FailuresFrom(d, attempts, j)
  {
    hide Built, OpenTime, Valid;
    if attempts != [] {
      var n := |attempts| - 1;
      if j <= n {
        assert !SucceededAt(d, attempts, n);
        if j > 0 { PrefixAt(d, attempts, n, j - 1); }
        forall i | j <= i < n ensures !SucceededAt(d, attempts[..n], i) { PrefixAt(d, attempts, n, i); }
        FailureCount(d, attempts[..n], j);
      }
    }
  }

  // ---------------------------------------------------------------- the open circuit

  /** The circuit is open exactly after three failures, until a time set by the last of them. */
  ghost predicate OpenInv(d: Definition, attempts: seq<Attempt>) {
    var c := After(d, attempts);
    (c.open.Some? <==> c.failures >= 3) &&
    (c.failures > 0 ==>
       exists i :: LastFailure(d, attempts, i) &&
            (c.failures >= 3 ==> c.open == Some(OpenTime(d, c.failures, attempts[i]))))
  }

  predicate LastFailure(d: Definition, attempts: seq<Attempt>, i: int) {
    0 <= i < |attempts| && FailedAt(d, attempts, i) &&
    forall k | i < k < |attempts| :: !FailedAt(d, attempts, k) && !SucceededAt(d, attempts, k)
  }

  lemma LastFailureGrows(d: Definition, attempts: seq<Attempt>, i: int)
    requires attempts != [] && LastFailure(d, attempts[..|attempts| - 1], i)
    requires !FailedAt(d, attempts, |attempts| - 1) && !SucceededAt(d, attempts, |attempts| - 1)
    ensures LastFailure(d, attempts, i)
  {
    hide FailedAt, SucceededAt;
    var n := |attempts| - 1;
    PrefixAt(d, attempts, n, i);
    forall k | i < k < |attempts| ensures !FailedAt(d, attempts, k) && !SucceededAt(d, attempts, k) {
      if k < n { PrefixAt(d, attempts, n, k); }
    }
  }

  lemma {:induction false} OpenIsSet(d: Definition, attempts: seq<Attempt>)
    ensures OpenInv(d, attempts)
  {
    hide Built, OpenTime, Valid;
    if attempts != [] {
      var n := |attempts| - 1;
      OpenIsSet(d, attempts[..n]);
      if FailedAt(d, attempts, n) {
        assert LastFailure(d, attempts, n);
      } else if !SucceededAt(d, attempts, n) && After(d, attempts).failures > 0 {
        var c := After(d, attempts[..n]);
        var i :| LastFailure(d, attempts[..n], i) &&
                 (c.failures >= 3 ==> c.open == Some(OpenTime(d, c.failures, attempts[..n][i])));
        LastFailureGrows(d, attempts, i);
      }
    }
  }

  /**
    No run starts while the circuit is open: after the third or a later failure in a row, the next
    run begins no earlier than that failure's time plus the backoff, capped at five minutes.
   */
  lemma NoRunWhileOpen(d: Definition, attempts: seq<Attempt>, a: Attempt) returns (i: nat)
    requires After(d, attempts).failures >= 3 && Runs(d, After(d, attempts), a)
    ensures LastFailure(d, attempts, i)
    ensures attempts[i].openFrom + Min(5 * MINUTE, Backoff(After(d, attempts).failures, d.refresh)) <= a.check
  {
    hide After, Backoff, Valid;
    OpenIsSet(d, attempts);
    var c := After(d, attempts);
    i :| LastFailure(d, attempts, i) && c.open == Some(OpenTime(d, c.failures, attempts[i]));
  }

  // ---------------------------------------------------------------- the document

  /** The attempt showed a new document. */
  predicate ShowedAt(d: Definition, attempts: seq<Attempt>, i: nat)
    requires i < |attempts|
  {
    SucceededAt(d, attempts, i) && attempts[i].stored && ValidHistory(attempts[i].outcome.history.value)
  }

  /** The document of the last attempt that showed one. */
  function LastGood(d: Definition, attempts: seq<Attempt>): Option<Document> {
    if attempts == [] then None
    else
      var n := |attempts| - 1;
      if ShowedAt(d, attempts, n) then Some(attempts[n].outcome.doc) else LastGood(d, attempts[..n])
  }

  lemma SuccessValid(d: Definition, a: Attempt)
    requires a.outcome.Succeeded? && a.outcome.history.Some?
    ensures Valid(SuccessState(d, a)) <==> ValidHistory(a.outcome.history.value)
    ensures SuccessState(d, a).document == Some(a.outcome.doc)
  {
    hide ValidHistory;
    var ttl := Ttl(d.refresh, a.outcome.hint);
    assert ttl / SECOND > 0;
  }

  lemma FailureValid(d: Definition, c: Card, a: Attempt)
    requires a.outcome.Failed? && ValidHistory(c.state.history)
    ensures Valid(FailureState(d, c, a)) && FailureState(d, c, a).document == c.state.document
    ensures ValidHistory(FailureState(d, c, a).history)
  {
    hide ValidHistory, Backoff;
    BackoffPositive(c.failures + 1, d.refresh);
    assert ValidHistory(map[]) by { EmptyHistory(); }
  }

  lemma EmptyHistory()
    ensures ValidHistory(map[])
  {
  }

  /** In every run the card's state is valid, and its document is the last good one. */
  lemma {:induction false} DocumentIsLastGood(d: Definition, attempts: seq<Attempt>)
    ensures Valid(After(d, attempts).state) && After(d, attempts).state.document == LastGood(d, attempts)
  {
    hide Backoff, ValidHistory, SuccessState, FailureState, Ttl, OpenTime;
    EmptyHistory();
    if attempts != [] {
      var n := |attempts| - 1;
      DocumentIsLastGood(d, attempts[..n]);
      var c, a := After(d, attempts[..n]), attempts[n];
      if Fails(d, c, a) {
        FailureValid(d, c, a);
      } else if Succeeds(d, c, a) {
        SuccessValid(d, a);
      } else if d.disabled != "" || !d.runnable {
        NothingRuns(d, attempts[..n]);
      }
    }
  }

  lemma {:induction false} NothingRuns(d: Definition, attempts: seq<Attempt>)
    requires d.disabled != "" || !d.runnable
    ensures LastGood(d, attempts) == None
  {
    if attempts != [] { NothingRuns(d, attempts[..|attempts| - 1]); }
  }

  /** A good document, once shown, is there for good: later failures keep it, only a later success replaces it. */
  lemma {:induction false} GoodDocumentKept(d: Definition, attempts: seq<Attempt>, more: seq<Attempt>)
    requires After(d, attempts).state.document.Some?
    ensures After(d, attempts + more).state.document.Some?
    ensures (forall i | |attempts| <= i < |attempts + more| :: !ShowedAt(d, attempts + more, i)) ==>
              After(d, attempts + more).state.document == After(d, attempts).state.document
  {
    hide After, ShowedAt;
    DocumentIsLastGood(d, attempts);
    DocumentIsLastGood(d, attempts + more);
    LastGoodKept(d, attempts, more);
  }

  lemma {:induction false} LastGoodKept(d: Definition, attempts: seq<Attempt>, more: seq<Attempt>)
    requires LastGood(d, attempts).Some?
    ensures LastGood(d, attempts + more).Some?
    ensures (forall i | |attempts| <= i < |attempts + more| :: !ShowedAt(d, attempts + more, i)) ==>
              LastGood(d, attempts + more) == LastGood(d, attempts)
  {
    hide After, SucceededAt;
    if more == [] {
      assert attempts + more == attempts;
    } else {
      var n := |more| - 1;
      var all := attempts + more;
      assert all[..|all| - 1] == attempts + more[..n];
      LastGoodKept(d, attempts, more[..n]);
      if forall i | |attempts| <= i < |all| :: !ShowedAt(d, all, i) {
        forall i | |attempts| <= i < |attempts + more[..n]| ensures !ShowedAt(d, attempts + more[..n], i) {
          assert !ShowedAt(d, all, i);
          PrefixAt(d, all, |all| - 1, i);
          assert all[..|all| - 1][i] == all[i];
        }
      }
    }
  }

  // ---------------------------------------------------------------- what refresh builds

  /**
    Every state refresh builds passes Validate, except a success whose document binds more than
    sixteen signals: the document schema allows up to forty-eight.
   */
  lemma BuiltIsValid(d: Definition, attempts: seq<Attempt>, a: Attempt)
    requires Built(d, After(d, attempts), a).Some?
    requires a.outcome.Succeeded? && a.outcome.history.Some? ==>
               forall name | name in a.outcome.history.value ::
                 |a.outcome.history.value[name]| <= Downsample.MAX_HISTORY_POINTS
    ensures Valid(Built(d, After(d, attempts), a).value) <==>
            !(Succeeds(d, After(d, attempts), a) && |a.outcome.history.value| > MAX_HISTORY_SIGNALS)
  {
    hide After, Backoff, SuccessState, FailureState, Ttl, OpenTime;
    var c := After(d, attempts);
    DocumentIsLastGood(d, attempts);
    if Fails(d, c, a) {
      FailureValid(d, c, a);
    } else if Succeeds(d, c, a) {
      SuccessValid(d, a);
    }
  }

  /** n bound signals, each with the one point its first run records. */
  function Bound(n: nat): (h: History)
    ensures |h| == n && forall name | name in h :: |name| <= n && |h[name]| == 1
  {
    if n == 0 then map[]
    else
      var h, name, points := Bound(n - 1), seq(n, _ => 'x'), [Downsample.Point(0, Some(1.0))];
      assert h[name := points].Keys == h.Keys + {name};
      h[name := points]
  }

  /** Seventeen bound signals: the run counts as a success, and the card goes on showing pending. */
  lemma SeventeenSignals()
    ensures var d := Definition(MINUTE, "", true);
            var a := Attempt(1, Succeeded(Document("x"), None, 1, 0, Some(Bound(17))), 0, 0, 0, 0, true);
            SucceededAt(d, [a], 0) && After(d, [a]).state == Pending()
  {
    hide Bound;
    var d := Definition(MINUTE, "", true);
    var a := Attempt(1, Succeeded(Document("x"), None, 1, 0, Some(Bound(17))), 0, 0, 0, 0, true);
    assert [a][..0] == [];
    assert !ValidHistory(Bound(17));
    SuccessValid(d, a);
    assert Refresh(d, Start(), a) == After(d, [a]);
  }

  // ---------------------------------------------------------------- the code

  class Manager {
    var failures: map<string, nat>
    var openUntil: map<string, nat>
    var states: map<string, CardState>

    /** Apply with nothing restored: every card pending. */
    constructor (ids: set<string>)
      ensures states.Keys == ids && forall id | id in ids :: View(id) == Start()
    {
      failures, openUntil := map[], map[];
      states := map id | id in ids :: Pending();
    }

    /** The manager's record of one card; absent entries read as zero. */
    function View(id: string): Card
      requires id in states
      reads this
    {
      Card(if id in failures then failures[id] else 0,
           if id in openUntil then Some(openUntil[id]) else None, states[id])
    }

    /** commit. */
    method Commit(id: string, cs: CardState, stored: bool)
      modifies this`states
      ensures states == if Valid(cs) && stored then old(states)[id := cs] else old(states)
    {
      if !Valid(cs) { return; }
      if !stored { return; }
      states := states[id := cs];
    }

    /** refresh: what it does to the card is one step of the breaker, and other cards do not move. */
    method RefreshCard(id: string, d: Definition, a: Attempt)
      requires id in states && d.refresh <= MAX_INT64
      modifies this
      ensures states.Keys == old(states.Keys)
      ensures View(id) == Refresh(d, old(View(id)), a)
      ensures forall other | other in states && other != id :: View(other) == old(View(other))
    {
      hide Valid, Backoff, Ttl;
      if d.disabled != "" {
        Commit(id, Disabled(d.disabled), a.stored);
        return;
      }
      if id in openUntil && a.check < openUntil[id] { return; }
      if !d.runnable {
        Commit(id, Disabled("config-error"), a.stored);
        return;
      }
      match a.outcome {
        case Succeeded(doc, hint, at, duration, history) =>
          var cs := Ok(doc, at, Ttl(d.refresh, hint), duration);
          if history.None? { return; }
          failures := failures[id := 0];
          openUntil := openUntil - {id};
          Commit(id, cs.(history := history.value), a.stored);
        case Failed(e) => Fail(id, d, a, e);
      }
    }

    method Fail(id: string, d: Definition, a: Attempt, e: RunError)
      requires id in states && d.refresh <= MAX_INT64 && a.outcome == Failed(e)
      modifies this
      ensures states.Keys == old(states.Keys)
      ensures View(id).state ==
              var cs := FailureState(d, old(View(id)), a); if Valid(cs) && a.stored then cs else old(states[id])
      ensures View(id).failures == old(View(id)).failures + 1
      ensures View(id).open ==
              var n := old(View(id)).failures + 1; if n >= 3 then Some(OpenTime(d, n, a)) else old(View(id)).open
      ensures forall other | other in states && other != id :: View(other) == old(View(other))
    {
      hide Valid, Backoff, StaleAfterError, StaleAfterErrorWithOpenCircuit, Error, ErrorWithOpenCircuit;
      var n := (if id in failures then failures[id] else 0) + 1;
      failures := failures[id := n];
      var previous := states[id];
      var generatedAt := if previous.execution.generatedAt.Some? then previous.execution.generatedAt.value else 0;
      var wait := ComputeBackoff(n, d.refresh);
      if n >= 3 {
        var open := a.openFrom + Min(5 * MINUTE, wait);
        openUntil := openUntil[id := open];
        if previous.document.Some? {
          var cs := StaleAfterErrorWithOpenCircuit(
            previous.document.value, generatedAt, a.staleAt, n, open, e, a.errorAt);
          Commit(id, cs.(history := previous.history), a.stored);
          return;
        }
        Commit(id, ErrorWithOpenCircuit(e, open, a.errorAt), a.stored);
        return;
      }
      var retry := a.retryFrom + wait;
      if previous.document.Some? {
        var cs := StaleAfterError(previous.document.value, generatedAt, a.staleAt, n, retry, e, a.errorAt);
        Commit(id, cs.(history := previous.history), a.stored);
        return;
      }
      var cs := Error(e, a.errorAt);
      Commit(id, cs.(execution := cs.execution.(failures := n, nextRunAt := Some(retry))), a.stored);
    }
  }
}
