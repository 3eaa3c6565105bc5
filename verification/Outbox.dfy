/**
  The notification outbox (internal/storage/notifications.go) and the dispatcher that drains it
  (internal/notify/dispatcher.go), as a state machine whose steps are the store's transactions.
  Every bound below holds over every run, whatever the clock does.
 */
module Outbox {
  import opened Durations
  import opened Options

  // ---------------------------------------------------------------- the tables

  datatype Delivery = Pending | Sending | Sent | Abandoned

  /** The columns an item keeps for ever; the empty key is a null one. */
  datatype Stamp = Stamp(created: int, channel: string, key: string)

  /** An item; its identifier is its position. `next` is None when null. */
  datatype Row = Row(stamp: Stamp, state: Delivery, attempts: nat, next: Option<int>) {
    predicate Open() { state == Pending || state == Sending }

    predicate Final() { !Open() }

    predicate Due(now: int) { state == Pending && (next.None? || next.value <= now) }
  }

  datatype Suspension = Suspension(channel: string, at: int)

  /** The items, the channels' suspended_until, and the suspension events logged. */
  datatype Box = Box(rows: seq<Row>, until: map<string, int>, suspensions: seq<Suspension>)

  datatype Request = Request(channel: string, key: string, now: int, cooldown: int, perHour: int)

  function Ceiling(perHour: int): nat { if perHour <= 0 then 20 else perHour }

  function Stamps(rows: seq<Row>): seq<Stamp> { seq(|rows|, i requires 0 <= i < |rows| => rows[i].stamp) }

  /** How many items of the channel were created from lo to hi, both included. */
  function CountIn(stamps: seq<Stamp>, channel: string, lo: int, hi: int): nat {
    if stamps == [] then 0
    else
      var s := stamps[|stamps| - 1];
      CountIn(stamps[..|stamps| - 1], channel, lo, hi) + if s.channel == channel && lo <= s.created <= hi then 1 else 0
  }

  function CountSince(stamps: seq<Stamp>, channel: string, lo: int): nat {
    if stamps == [] then 0
    else
      var s := stamps[|stamps| - 1];
      CountSince(stamps[..|stamps| - 1], channel, lo) + if s.channel == channel && lo <= s.created then 1 else 0
  }

  predicate Suspended(box: Box, r: Request) { r.channel in box.until && r.now < box.until[r.channel] }

  predicate Cooling(box: Box, r: Request) {
    r.cooldown > 0 && r.key != "" &&
    exists i :: 0 <= i < |box.rows| && box.rows[i].stamp.key == r.key &&
                (box.rows[i].Open() || box.rows[i].stamp.created >= r.now - r.cooldown)
  }

  predicate Full(box: Box, r: Request) {
    CountSince(Stamps(box.rows), r.channel, r.now - HOUR) >= Ceiling(r.perHour)
  }

  /** What the unique index on undelivered keys refuses. */
  predicate Clashing(box: Box, r: Request) {
    r.key != "" && exists i :: 0 <= i < |box.rows| && box.rows[i].stamp.key == r.key && box.rows[i].Open()
  }

  datatype Verdict = Refused | Suspends | Inserts

  function Judge(box: Box, r: Request): Verdict {
    if Suspended(box, r) || Cooling(box, r) then Refused
    else if Full(box, r) then Suspends
    else if Clashing(box, r) then Refused
    else Inserts
  }

  function AfterEnqueue(box: Box, r: Request): Box {
    match Judge(box, r)
    case Refused => box
    case Suspends =>
      box.(until := box.until[r.channel := r.now + HOUR],
           suspensions := box.suspensions + [Suspension(r.channel, r.now)])
    case Inserts =>
      box.(rows := box.rows + [Row(Stamp(r.now, r.channel, r.key), Pending, 0, Some(r.now))])
  }

  /** The first due item at or after position i. */
  function FirstDue(rows: seq<Row>, now: int, i: nat): (k: Option<nat>)
    requires i <= |rows|
    ensures k.None? <==> forall j | i <= j < |rows| :: !rows[j].Due(now)
    ensures k.Some? ==> i <= k.value < |rows| && rows[k.value].Due(now) &&
                        forall j | i <= j < k.value :: !rows[j].Due(now)
    decreases |rows| - i
  {
    if i == |rows| then None else if rows[i].Due(now) then Some(i) else FirstDue(rows, now, i + 1)
  }

  function Claimed(row: Row): Row { row.(state := Sending, attempts := row.attempts + 1) }

  function Recovered(row: Row): Row { if row.state == Sending then row.(state := Pending) else row }

  function RecoverAll(rows: seq<Row>): seq<Row> {
    seq(|rows|, i requires 0 <= i < |rows| => Recovered(rows[i]))
  }

  // ---------------------------------------------------------------- the dispatcher

  datatype Config = Config(maxAttempts: int, retryBase: int)

  /** NewDispatcher's defaults. */
  function Attempts(cfg: Config): nat { if cfg.maxAttempts <= 0 then 5 else cfg.maxAttempts }

  function Base(cfg: Config): nat { if cfg.retryBase <= 0 then SECOND else cfg.retryBase }

  /**
    RunOnce's retry delay: the base doubled for every attempt after the first, capped at an hour,
    and no step leaves the 64-bit range.
   */
  method RetryDelay(base: nat, attempts: nat) returns (delay: nat)
    requires 0 < attempts && base <= MAX_INT64
    ensures delay == Min(base * Power(attempts - 1), HOUR)
  {
    delay := base;
    var attempt := 1;
    while attempt < attempts && delay < HOUR
      invariant 1 <= attempt <= attempts
      invariant delay == base * Power(attempt - 1) && delay <= MAX_INT64
    {
      PowerStep(base, attempt - 1);
      assert delay * 2 <= MAX_INT64;
      delay := delay * 2;
      attempt := attempt + 1;
    }
    PowerGrows(base, attempt - 1, attempts - 1);
    if delay > HOUR { delay := HOUR; }
  }

  /** What became of a claimed item. */
  datatype Outcome = BadPayload | NoChannel | Delivered | Failed(permanent: bool)

  predicate Sends(o: Outcome) { o == Delivered || o.Failed? }

  function Settled(cfg: Config, row: Row, o: Outcome, at: int): Row {
    match o
    case Delivered => row.(state := Sent, next := None)
    case Failed(permanent) =>
      if row.attempts >= Attempts(cfg) || permanent then row.(state := Abandoned, next := None)
      else row.(state := Pending,
                next := Some(at + Min(Base(cfg) * Power(if row.attempts == 0 then 0 else row.attempts - 1), HOUR)))
    case _ => row.(state := Abandoned, next := None)
  }

  /**
    The store, the item the dispatcher is sending, and two history variables: how often each item
    was handed to its channel, and how often a restart found it half sent.
   */
  datatype System = System(box: Box, running: bool, inflight: Option<nat>, sends: seq<nat>, resets: seq<nat>)

  /** Settle with stored false: the send happened but its outcome could not be written. */
  datatype Action =
    | Enqueue(request: Request)
    | Claim(now: int)
    | Settle(outcome: Outcome, at: int, stored: bool)
    | Crash(sent: bool)
    | Restart

  const EMPTY := System(Box([], map[], []), false, None, [], [])

  function AfterInsert(s: System, r: Request): System {
    var box := AfterEnqueue(s.box, r);
    if Judge(s.box, r) == Inserts then s.(box := box, sends := s.sends + [0], resets := s.resets + [0])
    else s.(box := box)
  }

  function AfterClaim(s: System, now: int): System {
    var k := FirstDue(s.box.rows, now, 0);
    if !s.running || s.inflight.Some? || k.None? then s
    else s.(box := s.box.(rows := s.box.rows[k.value := Claimed(s.box.rows[k.value])]), inflight := k)
  }

  function Bump(s: seq<nat>, k: nat): seq<nat> { if k < |s| then s[k := s[k] + 1] else s }

  function AfterSettle(cfg: Config, s: System, o: Outcome, at: int, stored: bool): System {
    if s.inflight.None? || s.inflight.value >= |s.box.rows| then s
    else
      var k := s.inflight.value;
      var done := if Sends(o) then s.(sends := Bump(s.sends, k), inflight := None) else s.(inflight := None);
      if stored then done.(box := s.box.(rows := s.box.rows[k := Settled(cfg, s.box.rows[k], o, at)])) else done
  }

  function AfterCrash(s: System, sent: bool): System {
    s.(running := false, inflight := None,
       sends := if sent && s.inflight.Some? then Bump(s.sends, s.inflight.value) else s.sends)
  }

  function BumpSending(rows: seq<Row>, resets: seq<nat>): seq<nat> {
    seq(|resets|, i requires 0 <= i < |resets| =>
      if i < |rows| && rows[i].state == Sending then resets[i] + 1 else resets[i])
  }

  /** Dispatcher.Run begins by making half-sent items eligible again. */
  function AfterRestart(s: System): System {
    if s.running then s
    else s.(running := true, inflight := None, box := s.box.(rows := RecoverAll(s.box.rows)),
            resets := BumpSending(s.box.rows, s.resets))
  }

  function Next(cfg: Config, s: System, a: Action): System {
    match a
    case Enqueue(r) => AfterInsert(s, r)
    case Claim(now) => AfterClaim(s, now)
    case Settle(o, at, stored) => AfterSettle(cfg, s, o, at, stored)
    case Crash(sent) => AfterCrash(s, sent)
    case Restart => AfterRestart(s)
  }

  function Run(cfg: Config, actions: seq<Action>): System {
    if actions == [] then EMPTY
    else Next(cfg, Run(cfg, actions[..|actions| - 1]), actions[|actions| - 1])
  }

  // ---------------------------------------------------------------- what only enqueueing changes

  lemma OnlyEnqueueStamps(cfg: Config, s: System, a: Action)
    requires !a.Enqueue?
    ensures Stamps(Next(cfg, s, a).box.rows) == Stamps(s.box.rows)
    ensures Next(cfg, s, a).box.until == s.box.until && Next(cfg, s, a).box.suspensions == s.box.suspensions
  {
  }

  lemma StampsInsert(box: Box, r: Request)
    ensures Judge(box, r) == Inserts ==>
              Stamps(AfterEnqueue(box, r).rows) == Stamps(box.rows) + [Stamp(r.now, r.channel, r.key)]
    ensures Judge(box, r) != Inserts ==> AfterEnqueue(box, r).rows == box.rows
  {
    hide Judge;
  }

  // ---------------------------------------------------------------- the hourly ceiling

  /** Every request for the channel asked for a ceiling of at most `most`. */
  predicate CeilingWithin(actions: seq<Action>, channel: string, most: nat) {
    forall i | 0 <= i < |actions| ::
      actions[i].Enqueue? && actions[i].request.channel == channel ==> Ceiling(actions[i].request.perHour) <= most
  }

  lemma {:induction false} WindowWithinSince(stamps: seq<Stamp>, channel: string, w: int, lo: int)
    requires lo <= w
    ensures CountIn(stamps, channel, w, w + HOUR) <= CountSince(stamps, channel, lo)
  {
    if stamps != [] { WindowWithinSince(stamps[..|stamps| - 1], channel, w, lo); }
  }

  lemma CountPush(stamps: seq<Stamp>, s: Stamp, channel: string, lo: int, hi: int)
    ensures CountIn(stamps + [s], channel, lo, hi) ==
            CountIn(stamps, channel, lo, hi) + if s.channel == channel && lo <= s.created <= hi then 1 else 0
  {
    assert (stamps + [s])[..|stamps|] == stamps;
  }

  /** In every run no one-hour window, wherever it starts, holds more items of a channel than its ceiling. */
  lemma {:induction false} HourlyCeiling(cfg: Config, actions: seq<Action>, channel: string, most: nat, w: int)
    requires CeilingWithin(actions, channel, most)
    ensures CountIn(Stamps(Run(cfg, actions).box.rows), channel, w, w + HOUR) <= most
  {
    hide CountIn, CountSince, Judge, AfterEnqueue, Next, Stamps, Ceiling;
    if actions == [] {
      assert CountIn(Stamps(EMPTY.box.rows), channel, w, w + HOUR) == 0 by { NothingCounted(channel, w, w + HOUR); }
    } else {
      var n := |actions| - 1;
      var s, a := Run(cfg, actions[..n]), actions[n];
      forall i | 0 <= i < n
        ensures actions[..n][i].Enqueue? && actions[..n][i].request.channel == channel ==>
                  Ceiling(actions[..n][i].request.perHour) <= most
      { assert actions[..n][i] == actions[i]; }
      HourlyCeiling(cfg, actions[..n], channel, most, w);
      if a.Enqueue? {
        NextBox(cfg, s, a);
        InsertKeepsCeiling(s.box, a.request, channel, most, w);
      } else {
        OnlyEnqueueStamps(cfg, s, a);
      }
    }
  }

  lemma NothingCounted(channel: string, lo: int, hi: int)
    ensures CountIn(Stamps(EMPTY.box.rows), channel, lo, hi) == 0
  {
  }

  lemma NextBox(cfg: Config, s: System, a: Action)
    requires a.Enqueue?
    ensures Next(cfg, s, a).box == AfterEnqueue(s.box, a.request)
  {
  }

  lemma InsertKeepsCeiling(box: Box, r: Request, channel: string, most: nat, w: int)
    requires r.channel == channel ==> Ceiling(r.perHour) <= most
    requires CountIn(Stamps(box.rows), channel, w, w + HOUR) <= most
    ensures CountIn(Stamps(AfterEnqueue(box, r).rows), channel, w, w + HOUR) <= most
  {
    hide CountIn, CountSince, AfterEnqueue, Stamps, Ceiling, Cooling, Clashing;
    StampsInsert(box, r);
    if Judge(box, r) == Inserts {
      CountPush(Stamps(box.rows), Stamp(r.now, r.channel, r.key), channel, w, w + HOUR);
      if r.channel == channel && w <= r.now <= w + HOUR {
        WindowWithinSince(Stamps(box.rows), channel, w, r.now - HOUR);
      }
    }
  }

  // ---------------------------------------------------------------- the cooldown

  /** Every request with the key asked for a cooldown of at least `least`. */
  predicate CooldownAtLeast(actions: seq<Action>, key: string, least: int) {
    forall i | 0 <= i < |actions| ::
      actions[i].Enqueue? && actions[i].request.key == key ==> actions[i].request.cooldown >= least
  }

  /** In every run two items with the same key were created further apart than the cooldown. */
  lemma {:induction false} CooldownSpacing(cfg: Config, actions: seq<Action>, key: string, least: int, i: nat, j: nat)
    requires key != "" && least > 0 && CooldownAtLeast(actions, key, least)
    requires i < j < |Run(cfg, actions).box.rows|
    requires Run(cfg, actions).box.rows[i].stamp.key == key && Run(cfg, actions).box.rows[j].stamp.key == key
    ensures Run(cfg, actions).box.rows[i].stamp.created + least < Run(cfg, actions).box.rows[j].stamp.created
  {
    hide CountIn, CountSince, Judge, AfterEnqueue, Next, Ceiling;
    var n := |actions| - 1;
    var s, a := Run(cfg, actions[..n]), actions[n];
    forall m | 0 <= m < n
      ensures actions[..n][m].Enqueue? && actions[..n][m].request.key == key ==>
                actions[..n][m].request.cooldown >= least
    { assert actions[..n][m] == actions[m]; }
    var was, now := Stamps(s.box.rows), Stamps(Run(cfg, actions).box.rows);
    assert now[i].key == key && now[j].key == key;
    if a.Enqueue? {
      NextBox(cfg, s, a);
      StampsInsert(s.box, a.request);
      if j < |was| {
        assert was[i] == now[i] && was[j] == now[j];
        CooldownSpacing(cfg, actions[..n], key, least, i, j);
      } else {
        assert was[i] == now[i] && s.box.rows[i].stamp == was[i];
        InsertedAfterCooldown(s.box, a.request, i);
      }
    } else {
      OnlyEnqueueStamps(cfg, s, a);
      assert was[i] == now[i] && was[j] == now[j];
      CooldownSpacing(cfg, actions[..n], key, least, i, j);
    }
  }

  lemma InsertedAfterCooldown(box: Box, r: Request, i: nat)
    requires Judge(box, r) == Inserts && i < |box.rows| && box.rows[i].stamp.key == r.key && r.key != ""
    requires r.cooldown > 0
    ensures box.rows[i].stamp.created + r.cooldown < r.now
  {
    hide Full;
  }

  // ---------------------------------------------------------------- suspensions

  /** suspended_until is an hour after the channel's last suspension; suspensions are an hour apart. */
  predicate SuspensionInv(box: Box) {
    (forall i | 0 <= i < |box.suspensions| ::
       box.suspensions[i].channel in box.until &&
       box.suspensions[i].at + HOUR <= box.until[box.suspensions[i].channel]) &&
    forall i, j | 0 <= i < j < |box.suspensions| && box.suspensions[i].channel == box.suspensions[j].channel ::
      box.suspensions[i].at + HOUR <= box.suspensions[j].at
  }

  lemma EnqueueKeepsSuspensionInv(box: Box, r: Request)
    requires SuspensionInv(box)
    ensures SuspensionInv(AfterEnqueue(box, r))
  {
    hide Full, Cooling, Clashing;
    var after := AfterEnqueue(box, r);
    if Judge(box, r) == Suspends {
      var n := |box.suspensions|;
      assert after.suspensions == box.suspensions + [Suspension(r.channel, r.now)];
      forall i | 0 <= i < |after.suspensions|
        ensures after.suspensions[i].channel in after.until &&
                after.suspensions[i].at + HOUR <= after.until[after.suspensions[i].channel]
      {
        if i < n { assert after.suspensions[i] == box.suspensions[i]; }
      }
      forall i, j | 0 <= i < j < |after.suspensions| && after.suspensions[i].channel == after.suspensions[j].channel
        ensures after.suspensions[i].at + HOUR <= after.suspensions[j].at
      {
        assert after.suspensions[i] == box.suspensions[i];
        if j < n { assert after.suspensions[j] == box.suspensions[j]; }
      }
    }
  }

  lemma {:induction false} RunKeepsSuspensionInv(cfg: Config, actions: seq<Action>)
    ensures SuspensionInv(Run(cfg, actions).box)
  {
    hide AfterEnqueue, Next;
    if actions != [] {
      var n := |actions| - 1;
      RunKeepsSuspensionInv(cfg, actions[..n]);
      var s, a := Run(cfg, actions[..n]), actions[n];
      if a.Enqueue? {
        NextBox(cfg, s, a);
        EnqueueKeepsSuspensionInv(s.box, a.request);
      } else {
        OnlyEnqueueStamps(cfg, s, a);
      }
    }
  }

  /**
    Two suspensions of a channel begin at least an hour apart, and for an hour after one the channel
    takes nothing: no item, and no second suspension event.
   */
  lemma SuspensionsApart(cfg: Config, actions: seq<Action>, i: nat)
    requires i < |Run(cfg, actions).box.suspensions|
    ensures var box := Run(cfg, actions).box;
            (forall j | i < j < |box.suspensions| && box.suspensions[j].channel == box.suspensions[i].channel ::
               box.suspensions[i].at + HOUR <= box.suspensions[j].at) &&
            forall r: Request | r.channel == box.suspensions[i].channel && r.now < box.suspensions[i].at + HOUR ::
              AfterEnqueue(box, r) == box
  {
    hide Run;
    RunKeepsSuspensionInv(cfg, actions);
    var box := Run(cfg, actions).box;
    forall r: Request | r.channel == box.suspensions[i].channel && r.now < box.suspensions[i].at + HOUR
      ensures AfterEnqueue(box, r) == box
    {
      assert Suspended(box, r);
    }
  }

  // ---------------------------------------------------------------- delivery

  /** One item against its history: half-sent items have an attempt in hand. */
  predicate RowInv(cfg: Config, row: Row, sends: nat, resets: nat, inflight: bool) {
    sends <= row.attempts <= Attempts(cfg) + resets &&
    (row.state == Pending ==> row.attempts < Attempts(cfg) + resets) &&
    (inflight ==> row.state == Sending && sends < row.attempts)
  }

  predicate DeliveryInv(cfg: Config, s: System) {
    |s.sends| == |s.box.rows| && |s.resets| == |s.box.rows| &&
    (s.inflight.Some? ==> s.running && s.inflight.value < |s.box.rows|) &&
    forall i | 0 <= i < |s.box.rows| :: RowInv(cfg, s.box.rows[i], s.sends[i], s.resets[i], s.inflight == Some(i))
  }

  /** No two undelivered items share a key. */
  predicate OpenKeysDistinct(rows: seq<Row>) {
    forall i, j | 0 <= i < j < |rows| && rows[i].stamp.key == rows[j].stamp.key != "" ::
      !(rows[i].Open() && rows[j].Open())
  }

  lemma InsertKeepsDelivery(cfg: Config, s: System, r: Request)
    requires DeliveryInv(cfg, s) && OpenKeysDistinct(s.box.rows)
    ensures DeliveryInv(cfg, AfterInsert(s, r)) && OpenKeysDistinct(AfterInsert(s, r).box.rows)
    ensures s.box.rows <= AfterInsert(s, r).box.rows && s.sends <= AfterInsert(s, r).sends
  {
    hide Full, Suspended, Cooling;
    var n, t := |s.box.rows|, AfterInsert(s, r);
    if Judge(s.box, r) == Inserts {
      assert !Clashing(s.box, r);
      forall i | 0 <= i < |t.box.rows|
        ensures RowInv(cfg, t.box.rows[i], t.sends[i], t.resets[i], t.inflight == Some(i))
      {
        if i < n { assert RowInv(cfg, s.box.rows[i], s.sends[i], s.resets[i], s.inflight == Some(i)); }
      }
    }
  }

  lemma ReplaceKeepsKeys(rows: seq<Row>, k: nat, row: Row)
    requires OpenKeysDistinct(rows) && k < |rows| && rows[k].Open() && row.stamp == rows[k].stamp
    ensures OpenKeysDistinct(rows[k := row])
  {
  }

  lemma ClaimKeepsDelivery(cfg: Config, s: System, now: int)
    requires DeliveryInv(cfg, s) && OpenKeysDistinct(s.box.rows)
    ensures DeliveryInv(cfg, AfterClaim(s, now)) && OpenKeysDistinct(AfterClaim(s, now).box.rows)
    ensures |AfterClaim(s, now).box.rows| == |s.box.rows| && AfterClaim(s, now).sends == s.sends
    ensures forall i | 0 <= i < |s.box.rows| && s.box.rows[i].Final() :: AfterClaim(s, now).box.rows[i] == s.box.rows[i]
  {
    hide OpenKeysDistinct;
    var k := FirstDue(s.box.rows, now, 0);
    if k.Some? { ReplaceKeepsKeys(s.box.rows, k.value, Claimed(s.box.rows[k.value])); }
  }

  lemma SettleKeepsDelivery(cfg: Config, s: System, o: Outcome, at: int, stored: bool)
    requires DeliveryInv(cfg, s) && OpenKeysDistinct(s.box.rows)
    ensures var t := AfterSettle(cfg, s, o, at, stored);
            DeliveryInv(cfg, t) && OpenKeysDistinct(t.box.rows) && |t.box.rows| == |s.box.rows| &&
            forall i | 0 <= i < |s.box.rows| && s.box.rows[i].Final() ::
              t.box.rows[i] == s.box.rows[i] && t.sends[i] == s.sends[i]
  {
    hide OpenKeysDistinct, Power, Min;
    if s.inflight.Some? {
      var k := s.inflight.value;
      ReplaceKeepsKeys(s.box.rows, k, Settled(cfg, s.box.rows[k], o, at));
    }
  }

  lemma RestartKeepsDelivery(cfg: Config, s: System)
    requires DeliveryInv(cfg, s) && OpenKeysDistinct(s.box.rows)
    ensures var t := AfterRestart(s);
            DeliveryInv(cfg, t) && OpenKeysDistinct(t.box.rows) && |t.box.rows| == |s.box.rows| && t.sends == s.sends &&
            forall i | 0 <= i < |s.box.rows| && s.box.rows[i].Final() :: t.box.rows[i] == s.box.rows[i]
  {
  }

  lemma CrashKeepsDelivery(cfg: Config, s: System, sent: bool)
    requires DeliveryInv(cfg, s)
    ensures var t := AfterCrash(s, sent);
            DeliveryInv(cfg, t) && t.box == s.box &&
            forall i | 0 <= i < |s.box.rows| && s.box.rows[i].Final() :: t.sends[i] == s.sends[i]
  {
  }

  /** Sent and abandoned are final: nothing about such an item changes, and it is not sent again. */
  predicate FinalKept(s: System, t: System) {
    |s.box.rows| <= |t.box.rows| && |s.sends| == |s.box.rows| && |t.sends| == |t.box.rows| &&
    forall i | 0 <= i < |s.box.rows| && s.box.rows[i].Final() ::
      t.box.rows[i] == s.box.rows[i] && t.sends[i] == s.sends[i]
  }

  lemma StepKeepsDelivery(cfg: Config, s: System, a: Action)
    requires DeliveryInv(cfg, s) && OpenKeysDistinct(s.box.rows)
    ensures DeliveryInv(cfg, Next(cfg, s, a)) && OpenKeysDistinct(Next(cfg, s, a).box.rows)
    ensures FinalKept(s, Next(cfg, s, a))
  {
    hide AfterInsert, AfterClaim, AfterSettle, AfterCrash, AfterRestart, OpenKeysDistinct, RowInv;
    match a
    case Enqueue(r) => InsertKeepsDelivery(cfg, s, r);
    case Claim(now) => ClaimKeepsDelivery(cfg, s, now);
    case Settle(o, at, stored) => SettleKeepsDelivery(cfg, s, o, at, stored);
    case Crash(sent) => CrashKeepsDelivery(cfg, s, sent);
    case Restart => RestartKeepsDelivery(cfg, s);
  }

  lemma {:induction false} RunKeepsDelivery(cfg: Config, actions: seq<Action>)
    ensures DeliveryInv(cfg, Run(cfg, actions)) && OpenKeysDistinct(Run(cfg, actions).box.rows)
  {
    hide Next;
    if actions != [] {
      var n := |actions| - 1;
      RunKeepsDelivery(cfg, actions[..n]);
      StepKeepsDelivery(cfg, Run(cfg, actions[..n]), actions[n]);
    }
  }

  /** In every run an item is sent at most MaxAttempts times plus the restarts that found it half sent. */
  lemma SendsBounded(cfg: Config, actions: seq<Action>, i: nat)
    requires i < |Run(cfg, actions).box.rows|
    ensures var s := Run(cfg, actions);
            |s.sends| == |s.box.rows| == |s.resets| && s.sends[i] <= Attempts(cfg) + s.resets[i]
  {
    hide Run;
    RunKeepsDelivery(cfg, actions);
    var s := Run(cfg, actions);
    assert RowInv(cfg, s.box.rows[i], s.sends[i], s.resets[i], s.inflight == Some(i));
  }

  lemma NeverTwoOpen(cfg: Config, actions: seq<Action>, i: nat, j: nat)
    requires i < j < |Run(cfg, actions).box.rows|
    requires Run(cfg, actions).box.rows[i].stamp.key == Run(cfg, actions).box.rows[j].stamp.key != ""
    ensures !(Run(cfg, actions).box.rows[i].Open() && Run(cfg, actions).box.rows[j].Open())
  {
    hide Run;
    RunKeepsDelivery(cfg, actions);
  }

  lemma {:induction false} FinalIsForever(cfg: Config, actions: seq<Action>, more: seq<Action>)
    ensures FinalKept(Run(cfg, actions), Run(cfg, actions + more))
  {
    hide Next;
    if more == [] {
      assert actions + more == actions;
      RunKeepsDelivery(cfg, actions);
    } else {
      var n := |more| - 1;
      var all := actions + more;
      assert all[..|all| - 1] == actions + more[..n];
      FinalIsForever(cfg, actions, more[..n]);
      RunKeepsDelivery(cfg, actions + more[..n]);
      StepKeepsDelivery(cfg, Run(cfg, actions + more[..n]), more[n]);
    }
  }

  // ---------------------------------------------------------------- the code

  class Store {
    var rows: seq<Row>
    var until: map<string, int>
    var suspensions: seq<Suspension>

    constructor ()
      ensures Contents() == EMPTY.box
    {
      rows, until, suspensions := [], map[], [];
    }

    function Contents(): Box
      reads this
    {
      Box(rows, until, suspensions)
    }

    /** The cooldown query: an item with the key that is undelivered or recent. */
    method RecentlyQueued(key: string, since: int) returns (found: bool)
      ensures found <==> exists i :: 0 <= i < |rows| && rows[i].stamp.key == key &&
                             (rows[i].Open() || rows[i].stamp.created >= since)
    {
      for i := 0 to |rows|
        invariant !exists j :: 0 <= j < i && rows[j].stamp.key == key &&
                           (rows[j].Open() || rows[j].stamp.created >= since)
      {
        if rows[i].stamp.key == key && (rows[i].Open() || rows[i].stamp.created >= since) { return true; }
      }
      return false;
    }

    /** The hourly query. */
    method CountRecent(channel: string, since: int) returns (count: nat)
      ensures count == CountSince(Stamps(rows), channel, since)
    {
      count := 0;
      ghost var stamps := Stamps(rows);
      for i := 0 to |rows|
        invariant count == CountSince(stamps[..i], channel, since)
      {
        assert stamps[..i + 1][..i] == stamps[..i] && stamps[i] == rows[i].stamp;
        if rows[i].stamp.channel == channel && rows[i].stamp.created >= since { count := count + 1; }
      }
      assert stamps[..|rows|] == stamps;
    }

    /** INSERT OR IGNORE under the unique index on undelivered keys. */
    method InsertOrIgnore(row: Row) returns (inserted: bool)
      modifies this`rows
      ensures inserted <==>
                !(row.stamp.key != "" &&
                  exists i :: 0 <= i < |old(rows)| && old(rows)[i].stamp.key == row.stamp.key && old(rows)[i].Open())
      ensures rows == if inserted then old(rows) + [row] else old(rows)
    {
      if row.stamp.key != "" {
        for i := 0 to |rows|
          invariant rows == old(rows)
          invariant !exists j :: 0 <= j < i && rows[j].stamp.key == row.stamp.key && rows[j].Open()
        {
          if rows[i].stamp.key == row.stamp.key && rows[i].Open() { return false; }
        }
      }
      rows := rows + [row];
      return true;
    }

    /** enqueueNotificationTx. */
    method EnqueueNotification(r: Request) returns (enqueued: bool, newlySuspended: bool)
      modifies this
      ensures Contents() == AfterEnqueue(old(Contents()), r)
      ensures enqueued <==> Judge(old(Contents()), r) == Inserts
      ensures newlySuspended <==> Judge(old(Contents()), r) == Suspends
    {
      hide CountSince, Stamps;
      if r.channel in until && r.now < until[r.channel] { return false, false; }
      if r.cooldown > 0 && r.key != "" {
        var recent := RecentlyQueued(r.key, r.now - r.cooldown);
        if recent { return false, false; }
      }
      var perHour := r.perHour;
      if perHour <= 0 { perHour := 20; }
      var hourly := CountRecent(r.channel, r.now - HOUR);
      if hourly >= perHour {
        until := until[r.channel := r.now + HOUR];
        suspensions := suspensions + [Suspension(r.channel, r.now)];
        return false, true;
      }
      enqueued := InsertOrIgnore(Row(Stamp(r.now, r.channel, r.key), Pending, 0, Some(r.now)));
      newlySuspended := false;
    }

    method ResetSendingNotifications()
      modifies this`rows
      ensures rows == RecoverAll(old(rows))
    {
      ghost var before, after := rows, RecoverAll(rows);
      for i := 0 to |rows|
        invariant |rows| == |before|
        invariant forall j | 0 <= j < |rows| :: rows[j] == if j < i then after[j] else before[j]
      {
        if rows[i].state == Sending { rows := rows[i := rows[i].(state := Pending)]; }
      }
    }

    /** ClaimNotification: the oldest due item. */
    method ClaimNotification(now: int) returns (id: Option<nat>)
      modifies this`rows
      ensures id == FirstDue(old(rows), now, 0)
      ensures id.None? ==> rows == old(rows)
      ensures id.Some? ==> rows == old(rows)[id.value := Claimed(old(rows)[id.value])]
    {
      for i := 0 to |rows|
        invariant rows == old(rows)
        invariant FirstDue(rows, now, 0) == FirstDue(rows, now, i)
      {
        if rows[i].Due(now) {
          rows := rows[i := rows[i].(state := Sending, attempts := rows[i].attempts + 1)];
          return Some(i);
        }
      }
      return None;
    }

    method CompleteNotification(id: nat)
      modifies this`rows
      ensures rows ==
              if id < |old(rows)| then old(rows)[id := old(rows)[id].(state := Sent, next := None)] else old(rows)
    {
      if id < |rows| { rows := rows[id := rows[id].(state := Sent, next := None)]; }
    }

    method FailNotification(id: nat, next: int, abandon: bool)
      modifies this`rows
      ensures rows ==
              if id >= |old(rows)| then old(rows)
              else if abandon then old(rows)[id := old(rows)[id].(state := Abandoned, next := None)]
              else old(rows)[id := old(rows)[id].(state := Pending, next := Some(next))]
    {
      if id >= |rows| { return; }
      var state, nextValue := Pending, Some(next);
      if abandon { state, nextValue := Abandoned, None; }
      rows := rows[id := rows[id].(state := state, next := nextValue)];
    }
  }

  class Dispatcher {
    const store: Store
    const maxAttempts: nat
    const retryBase: nat
    ghost const config: Config

    ghost predicate Valid() {
      maxAttempts == Attempts(config) && retryBase == Base(config) <= MAX_INT64
    }

    constructor (store: Store, cfg: Config)
      requires cfg.retryBase <= MAX_INT64
      ensures Valid() && this.store == store && config == cfg
    {
      this.store := store;
      config := cfg;
      maxAttempts := if cfg.maxAttempts <= 0 then 5 else cfg.maxAttempts;
      retryBase := if cfg.retryBase <= 0 then SECOND else cfg.retryBase;
    }

    /** RunOnce: a claim and its settlement, the two steps of the machine, with nothing in between. */
    method RunOnce(now: int, outcome: Outcome, at: int) returns (claimed: bool)
      requires Valid()
      modifies store`rows
      ensures claimed <==> FirstDue(old(store.rows), now, 0).Some?
      ensures forall sends, resets ::
                var s := System(old(store.Contents()), true, None, sends, resets);
                store.Contents() == Next(config, Next(config, s, Claim(now)), Settle(outcome, at, true)).box
    {
      hide Power, Min, Bump;
      var id := store.ClaimNotification(now);
      if id.None? { return false; }
      var k := id.value;
      var attempts := store.rows[k].attempts;
      match outcome {
        case Delivered => store.CompleteNotification(k);
        case Failed(permanent) =>
          var abandon := attempts >= maxAttempts || permanent;
          var delay := RetryDelay(retryBase, attempts);
          store.FailNotification(k, at + delay, abandon);
        case _ => store.FailNotification(k, 0, true);
      }
      return true;
    }
  }
}
