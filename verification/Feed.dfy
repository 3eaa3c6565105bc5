/**
  How a committed state reaches the browser and the rules: the scheduler's state subscriptions
  (internal/scheduler/scheduler.go), the event hub's subscription to them (internal/api/sse.go) and
  the rule manager's (internal/rules/manager.go), over every interleaving of refreshes, subscribers
  and the two goroutines.
 */
module Feed {
  import Scheduler
  import SseHub
  import opened Channels
  import opened Options

  const HUB: nat := 0
  const RULES: nat := 1
  const READER_BUFFER: nat := 32
  const CARD := "card"

  type Marshal = Scheduler.Visible -> string

  datatype Event = Event(id: nat, state: Scheduler.Visible)

  /** One subscription; its channel starts after the commits before it. */
  datatype Sub = Sub(capacity: nat, chan: Channel<Event>)

  /**
    The rule manager: `due` is the event its goroutine has received and not yet evaluated for,
    `triggered` those it has. `seen`, `generation` and `snapshot` are the commits, the configuration
    and the states at the last evaluation that read them; `owed` says none has since activation.
   */
  datatype RuleReader = RuleReader(
    due: seq<Event>, triggered: seq<Event>, active: bool, stopped: bool, owed: bool,
    seen: nat, generation: nat, snapshot: map<string, Scheduler.Visible>)

  /** `hand` is the event the hub's goroutine has received and not yet broadcast. */
  datatype State = State(
    sched: Scheduler.Sched, log: seq<Event>, subs: map<nat, Sub>, hand: seq<Event>, hub: SseHub.State,
    rules: RuleReader)

  datatype Action =
    | Schedule(step: Scheduler.Action)
    | Subscribe(ch: nat, buffer: int)
    | Cancel(ch: nat)
    | Receive(ch: nat)
    | Stop
    | StartHub
    | HubReceive
    | HubPublish
    | Serve(served: SseHub.Action)
    | StartRules
    | RulesReceive
    | RulesRun
    | RulesTimer
    | RulesApply
    | RulesActivate
    | RulesCall
    | RulesClose

  function Init(nonce: string): State {
    State(Scheduler.EMPTY, [], map[], [], SseHub.Init(nonce),
          RuleReader([], [], false, false, false, 0, 0, map[]))
  }

  // ---------------------------------------------------------------- the machine

  /** The state a scheduler step commits, if it commits one. */
  function Published(s: Scheduler.Sched, a: Scheduler.Action): Option<Scheduler.Visible> {
    if !a.Refresh? || a.t >= |s.threads| || Scheduler.Superseded(s.defs, s.threads[a.t].def) then None
    else
      var d, pc := s.threads[a.t].def, s.threads[a.t].pc;
      match a.op
      case Commit(stored) => if stored && pc.HasResult? then Some(Scheduler.Committed(d, pc.result)) else None
      case CommitDisabled(stored) => if stored && pc.Checked? then Some(Scheduler.Disabled(d)) else None
      case _ => None
  }

  function OfferAll(subs: map<nat, Sub>, e: Event): map<nat, Sub> {
    map c | c in subs :: subs[c].(chan := Offered(subs[c].chan, subs[c].capacity, e))
  }

  function Publishes(s: State, v: Scheduler.Visible): State {
    var e := Event(|s.log| + 1, v);
    s.(log := s.log + [e], subs := OfferAll(s.subs, e))
  }

  function NewSub(buffer: int, from: nat): Sub { Sub(if buffer < 1 then 1 else buffer, Channel(from, [], [], true)) }

  function Opened(s: State, ch: nat, buffer: int): State {
    if ch in s.subs then s else s.(subs := s.subs[ch := NewSub(buffer, |s.log|)])
  }

  /** The subscriptions with one channel replaced. */
  function With(subs: map<nat, Sub>, ch: nat, chan: Channel<Event>): map<nat, Sub>
    requires ch in subs
  {
    subs[ch := subs[ch].(chan := chan)]
  }

  predicate Readable(s: State, ch: nat) { ch in s.subs && s.subs[ch].chan.buffer != [] }

  function Takes(s: State, ch: nat): State
    requires Readable(s, ch)
  {
    s.(subs := With(s.subs, ch, Taken(s.subs[ch].chan)))
  }

  function Ends(s: State, ch: nat): State {
    if ch !in s.subs then s else s.(subs := With(s.subs, ch, Shut(s.subs[ch].chan)))
  }

  function Closed(subs: map<nat, Sub>): map<nat, Sub> { map c | c in subs :: subs[c].(chan := Shut(subs[c].chan)) }

  /** The rule manager reads one snapshot of the visible states. */
  function Looks(s: State): State {
    s.(rules := s.rules.(owed := false, seen := |s.log|, generation := s.sched.generation, snapshot := s.sched.states))
  }

  /** evaluateAll under the manager's own context. */
  function EvaluatesOwn(s: State): State { if s.rules.active && !s.rules.stopped then Looks(s) else s }

  /** The channels of the hub and the rule manager are theirs alone. */
  predicate Private(ch: nat) { ch == HUB || ch == RULES }

  /** The hub never cancels its subscription, neither reader subscribes again, and only the hub broadcasts cards. */
  function Next(marshal: Marshal, s: State, a: Action): State {
    match a
    case Schedule(step) =>
      var v, moved := Published(s.sched, step), s.(sched := Scheduler.Next(s.sched, step));
      if v.None? then moved else Publishes(moved, v.value)
    case Subscribe(ch, buffer) => if Private(ch) then s else Opened(s, ch, buffer)
    case Cancel(ch) => if Private(ch) then s else Ends(s, ch)
    case Receive(ch) => if Private(ch) || !Readable(s, ch) then s else Takes(s, ch)
    case Stop => s.(subs := Closed(s.subs))
    case StartHub => Opened(s, HUB, READER_BUFFER)
    case HubReceive =>
      if s.hand != [] || !Readable(s, HUB) then s else Takes(s, HUB).(hand := [s.subs[HUB].chan.buffer[0]])
    case HubPublish =>
      if s.hand == [] then s
      else s.(hand := s.hand[1..], hub := SseHub.Next(s.hub, SseHub.Broadcast(CARD, marshal(s.hand[0].state))))
    case Serve(x) => if x.Broadcast? && x.name == CARD then s else s.(hub := SseHub.Next(s.hub, x))
    case StartRules => Opened(s, RULES, READER_BUFFER)
    case RulesReceive =>
      if s.rules.due != [] || !Readable(s, RULES) then s
      else Takes(s, RULES).(rules := s.rules.(due := [s.subs[RULES].chan.buffer[0]]))
    case RulesRun => EvaluatesOwn(s.(rules := s.rules.(due := [], triggered := s.rules.triggered + s.rules.due)))
    case RulesTimer => EvaluatesOwn(s)
    case RulesApply => s.(rules := s.rules.(active := false))
    case RulesActivate => s.(rules := s.rules.(owed := s.rules.owed || !s.rules.active, active := true))
    case RulesCall => if s.rules.active then Looks(s) else s
    case RulesClose => Ends(s, RULES).(rules := s.rules.(stopped := true))
  }

  function Run(marshal: Marshal, nonce: string, actions: seq<Action>): State {
    if actions == [] then Init(nonce)
    else Next(marshal, Run(marshal, nonce, actions[..|actions| - 1]), actions[|actions| - 1])
  }

  // ---------------------------------------------------------------- what is published

  /** What is published is exactly what became visible by a commit. */
  lemma PublishedIsVisible(s: Scheduler.Sched, a: Scheduler.Action)
    ensures var v, after := Published(s, a), Scheduler.Next(s, a);
            (v.Some? ==>
               (v.value.Committed? || v.value.Disabled?) && after.states == s.states[v.value.def.id := v.value]) &&
            (v.None? && !a.Apply? ==> after.states == s.states)
  {
  }

  /** The scheduler's part of a run. */
  function Scheduled(actions: seq<Action>): seq<Scheduler.Action> {
    if actions == [] then []
    else
      var a := actions[|actions| - 1];
      Scheduled(actions[..|actions| - 1]) + if a.Schedule? then [a.step] else []
  }

  /** The states a scheduler run commits, in order. */
  function Commits(steps: seq<Scheduler.Action>): seq<Scheduler.Visible> {
    if steps == [] then []
    else
      var n := |steps| - 1;
      var v := Published(Scheduler.Run(steps[..n]), steps[n]);
      Commits(steps[..n]) + if v.Some? then [v.value] else []
  }

  function States(events: seq<Event>): seq<Scheduler.Visible> {
    seq(|events|, i requires 0 <= i < |events| => events[i].state)
  }

  ghost predicate Numbered(log: seq<Event>) { forall i | 0 <= i < |log| :: log[i].id == i + 1 }

  lemma LogStep(marshal: Marshal, s: State, a: Action)
    ensures var t := Next(marshal, s, a);
            if a.Schedule? then
              var v := Published(s.sched, a.step);
              t.sched == Scheduler.Next(s.sched, a.step) &&
              t.log == s.log + if v.Some? then [Event(|s.log| + 1, v.value)] else []
            else t.sched == s.sched && t.log == s.log
  {
    hide Published, Scheduler.Next, SseHub.Next, OfferAll, Closed;
  }

  lemma ScheduledOneMore(steps: seq<Scheduler.Action>, step: Scheduler.Action)
    ensures var v := Published(Scheduler.Run(steps), step);
            Scheduler.Run(steps + [step]) == Scheduler.Next(Scheduler.Run(steps), step) &&
            Commits(steps + [step]) == Commits(steps) + if v.Some? then [v.value] else []
  {
    hide Published, Scheduler.Next;
    assert (steps + [step])[..|steps|] == steps;
  }

  /** The log is the scheduler's commits, numbered from one. */
  lemma {:induction false} LogIsCommits(marshal: Marshal, nonce: string, actions: seq<Action>)
    ensures var s := Run(marshal, nonce, actions);
            s.sched == Scheduler.Run(Scheduled(actions)) &&
            States(s.log) == Commits(Scheduled(actions)) && Numbered(s.log)
  {
    if actions != [] {
      var n := |actions| - 1;
      LogIsCommits(marshal, nonce, actions[..n]);
      var steps := Scheduled(actions[..n]);
      hide Published, Next, Scheduler.Next, Commits, Scheduler.Run;
      LogStep(marshal, Run(marshal, nonce, actions[..n]), actions[n]);
      if actions[n].Schedule? {
        ScheduledOneMore(steps, actions[n].step);
      } else {
        assert steps + [] == steps;
      }
    }
  }

  // ---------------------------------------------------------------- what a subscriber gets

  ghost predicate SubsFollow(log: seq<Event>, subs: map<nat, Sub>) {
    forall c | c in subs :: FollowsLog(log, subs[c].chan, subs[c].capacity)
  }

  lemma {:induction false} StepFollows(marshal: Marshal, s: State, a: Action)
    requires SubsFollow(s.log, s.subs)
    ensures SubsFollow(Next(marshal, s, a).log, Next(marshal, s, a).subs)
  {
    var t := Next(marshal, s, a);
    forall c | c in t.subs ensures FollowsLog(t.log, t.subs[c].chan, t.subs[c].capacity) {
      SubStep(marshal, s, a, c);
      hide Next;
      if c in s.subs {
        SubMoveFollows(s, t, c);
      } else {
        assert t.subs[c].chan.taken + t.subs[c].chan.buffer == [];
      }
    }
  }

  /** What one step can do to one subscription and the log. */
  datatype Move = Stays | Gets(e: Event) | Gives | Shuts

  ghost predicate Moves(s: State, t: State, c: nat, m: Move)
    requires c in s.subs
  {
    c in t.subs && t.subs[c].capacity == s.subs[c].capacity &&
    var was, now := s.subs[c].chan, t.subs[c].chan;
    match m
    case Stays => t.log == s.log && now == was
    case Gets(e) => e.id == |s.log| + 1 && t.log == s.log + [e] && now == Offered(was, s.subs[c].capacity, e)
    case Gives => t.log == s.log && was.buffer != [] && now == Taken(was)
    case Shuts => t.log == s.log && now == Shut(was)
  }

  function MoveOf(s: State, a: Action, c: nat): Move {
    match a
    case Schedule(step) =>
      var v := Published(s.sched, step);
      if v.Some? then Gets(Event(|s.log| + 1, v.value)) else Stays
    case Cancel(ch) => if ch == c && !Private(c) then Shuts else Stays
    case Receive(ch) => if ch == c && !Private(c) && Readable(s, c) then Gives else Stays
    case HubReceive => if c == HUB && s.hand == [] && Readable(s, HUB) then Gives else Stays
    case RulesReceive => if c == RULES && s.rules.due == [] && Readable(s, RULES) then Gives else Stays
    case RulesClose => if c == RULES then Shuts else Stays
    case Stop => Shuts
    case _ => Stays
  }

  lemma SubStep(marshal: Marshal, s: State, a: Action, c: nat)
    ensures var t := Next(marshal, s, a);
            (c in s.subs ==> Moves(s, t, c, MoveOf(s, a, c))) &&
            (c !in s.subs && c in t.subs ==>
               t.log == s.log && t.subs[c].chan == Channel(|s.log|, [], [], true) && t.subs[c].capacity >= 1 &&
               (Private(c) ==> t.subs[c].capacity == READER_BUFFER))
  {
    hide Published, Scheduler.Next, SseHub.Next;
  }

  lemma SubMoveFollows(s: State, t: State, c: nat)
    requires c in s.subs && FollowsLog(s.log, s.subs[c].chan, s.subs[c].capacity) && exists m :: Moves(s, t, c, m)
    ensures FollowsLog(t.log, t.subs[c].chan, t.subs[c].capacity)
  {
    var m :| Moves(s, t, c, m);
    hide FollowsLog, Offered, Taken, Shut;
    if m.Gets? {
      OfferedFollows(s.log, s.subs[c].chan, s.subs[c].capacity, m.e);
    } else if m.Gives? {
      TakenFollows(s.log, s.subs[c].chan, s.subs[c].capacity);
    } else if m.Shuts? {
      ShutFollows(s.log, s.subs[c].chan, s.subs[c].capacity);
    }
  }

  lemma {:induction false} RunFollows(marshal: Marshal, nonce: string, actions: seq<Action>)
    ensures SubsFollow(Run(marshal, nonce, actions).log, Run(marshal, nonce, actions).subs)
  {
    hide Next, FollowsLog;
    if actions != [] {
      var n := |actions| - 1;
      RunFollows(marshal, nonce, actions[..n]);
      StepFollows(marshal, Run(marshal, nonce, actions[..n]), actions[n]);
    }
  }

  lemma {:induction false} SubKept(marshal: Marshal, nonce: string, actions: seq<Action>, more: seq<Action>, c: nat)
    requires c in Run(marshal, nonce, actions).subs
    ensures var s, t := Run(marshal, nonce, actions), Run(marshal, nonce, actions + more);
            c in t.subs && t.subs[c].chan.from == s.subs[c].chan.from && s.log <= t.log &&
            (!s.subs[c].chan.open ==>
               !t.subs[c].chan.open &&
               t.subs[c].chan.taken + t.subs[c].chan.buffer == s.subs[c].chan.taken + s.subs[c].chan.buffer)
  {
    hide Next;
    if more == [] {
      assert actions + more == actions;
    } else {
      var n := |more| - 1;
      var all := actions + more;
      assert all[..|all| - 1] == actions + more[..n];
      SubKept(marshal, nonce, actions, more[..n], c);
      var before := Run(marshal, nonce, actions + more[..n]);
      SubStep(marshal, before, more[n], c);
      RunFollows(marshal, nonce, actions + more[..n]);
      if before.subs[c].chan.buffer != [] { TakenFollows(before.log, before.subs[c].chan, before.subs[c].capacity); }
    }
  }

  /**
    A subscriber gets exactly the commits after it subscribed, in order and without a gap: all of
    them, taken or buffered, while its channel is open, and a beginning of them once it is closed.
   */
  lemma {:induction false} SubscriberGetsCommits(
      marshal: Marshal, nonce: string, actions: seq<Action>, ch: nat, buffer: int, more: seq<Action>)
    requires !Private(ch) && ch !in Run(marshal, nonce, actions).subs
    ensures var s := Run(marshal, nonce, actions);
            var t := Run(marshal, nonce, actions + [Subscribe(ch, buffer)] + more);
            s.log <= t.log && ch in t.subs &&
            t.subs[ch].chan.taken + t.subs[ch].chan.buffer <= t.log[|s.log|..] &&
            (t.subs[ch].chan.open ==> t.subs[ch].chan.taken + t.subs[ch].chan.buffer == t.log[|s.log|..])
  {
    var first := actions + [Subscribe(ch, buffer)];
    assert first[..|first| - 1] == actions;
    assert Run(marshal, nonce, first) == Opened(Run(marshal, nonce, actions), ch, buffer);
    hide Next, Run;
    SubKept(marshal, nonce, first, more, ch);
    RunFollows(marshal, nonce, first + more);
  }

  /** Nobody ended the subscription: neither its owner nor the manager's Close. */
  predicate Unended(actions: seq<Action>, c: nat) {
    forall i | 0 <= i < |actions| ::
      actions[i] != Stop && (Private(c) || actions[i] != Cancel(c)) && (c == RULES ==> actions[i] != RulesClose)
  }

  /** Unless it was ended, a subscription is open exactly while nothing committed since is missing from it. */
  lemma {:induction false} NothingLostIff(marshal: Marshal, nonce: string, actions: seq<Action>, c: nat)
    requires Unended(actions, c) && c in Run(marshal, nonce, actions).subs
    ensures var s := Run(marshal, nonce, actions);
            s.subs[c].chan.from <= |s.log| &&
            (s.subs[c].chan.open <==> s.subs[c].chan.taken + s.subs[c].chan.buffer == s.log[s.subs[c].chan.from..])
  {
    RunFollows(marshal, nonce, actions);
    LossShows(marshal, nonce, actions, c);
    hide Run, Next;
  }

  lemma {:induction false} LossShows(marshal: Marshal, nonce: string, actions: seq<Action>, c: nat)
    requires Unended(actions, c) && c in Run(marshal, nonce, actions).subs
    ensures var s := Run(marshal, nonce, actions);
            !s.subs[c].chan.open ==> s.subs[c].chan.from + |s.subs[c].chan.taken| + |s.subs[c].chan.buffer| < |s.log|
  {
    hide Next;
    if actions != [] {
      var n := |actions| - 1;
      var before := Run(marshal, nonce, actions[..n]);
      SubStep(marshal, before, actions[n], c);
      if c in before.subs {
        assert forall i | 0 <= i < n :: actions[..n][i] == actions[i];
        LossShows(marshal, nonce, actions[..n], c);
        RunFollows(marshal, nonce, actions[..n]);
        assert FollowsLog(before.log, before.subs[c].chan, before.subs[c].capacity);
      }
    }
  }

  /** A step closes a subscription exactly by ending it or by committing while its channel is full. */
  lemma {:induction false} ClosesWhenFull(marshal: Marshal, s: State, a: Action, c: nat)
    requires SubsFollow(s.log, s.subs) && c in s.subs && s.subs[c].chan.open
    ensures c in Next(marshal, s, a).subs
    ensures !Next(marshal, s, a).subs[c].chan.open <==>
            a == Stop || (a == Cancel(c) && !Private(c)) || (a == RulesClose && c == RULES) ||
            (a.Schedule? && Published(s.sched, a.step).Some? && |s.subs[c].chan.buffer| == s.subs[c].capacity)
  {
    SubStep(marshal, s, a, c);
    assert FollowsLog(s.log, s.subs[c].chan, s.subs[c].capacity);
    hide Next, Published;
  }

  // ---------------------------------------------------------------- what the hub broadcasts

  function Cards(log: seq<SseHub.Event>): seq<string> {
    if log == [] then []
    else
      var e := log[|log| - 1];
      Cards(log[..|log| - 1]) + if e.name == CARD then [e.data] else []
  }

  function Texts(marshal: Marshal, events: seq<Event>): (r: seq<string>)
    ensures |r| == |events| && forall i | 0 <= i < |r| :: r[i] == marshal(events[i].state)
  {
    seq(|events|, i requires 0 <= i < |events| => marshal(events[i].state))
  }

  lemma TextsOfBoth(marshal: Marshal, a: seq<Event>, b: seq<Event>)
    ensures Texts(marshal, a + b) == Texts(marshal, a) + Texts(marshal, b)
  {
  }

  /** Cards broadcast and the event in hand are what the hub took from its channel. */
  ghost predicate HubInv(marshal: Marshal, s: State) {
    |s.hand| <= 1 &&
    (HUB !in s.subs ==> s.hand == [] && Cards(s.hub.log) == []) &&
    (HUB in s.subs ==> s.subs[HUB].capacity == READER_BUFFER &&
                       Cards(s.hub.log) + Texts(marshal, s.hand) == Texts(marshal, s.subs[HUB].chan.taken))
  }

  lemma ServeKeepsCards(h: SseHub.State, x: SseHub.Action)
    ensures Cards(SseHub.Next(h, x).log) ==
            Cards(h.log) + if x.Broadcast? && x.name == CARD then [x.data] else []
  {
    hide SseHub.OfferAll, SseHub.Counts, SseHub.Live, SseHub.Trim, SseHub.EventId, SseHub.Refused, SseHub.NewStream;
    var log := SseHub.Next(h, x).log;
    if x.Broadcast? {
      assert log[..|log| - 1] == h.log;
    } else {
      assert Cards(h.log) + [] == Cards(h.log);
    }
  }

  lemma HubFrame(marshal: Marshal, s: State, a: Action)
    requires !a.HubReceive? && !a.HubPublish? && !a.Serve?
    ensures Next(marshal, s, a).hand == s.hand && Next(marshal, s, a).hub == s.hub
  {
    hide Published, Scheduler.Next, OfferAll, Closed;
  }

  lemma {:induction false} HubStep(marshal: Marshal, s: State, a: Action)
    requires HubInv(marshal, s)
    ensures HubInv(marshal, Next(marshal, s, a))
  {
    var t := Next(marshal, s, a);
    SubStep(marshal, s, a, HUB);
    hide Published, Scheduler.Next, SseHub.Next, Cards, OfferAll, Closed;
    if a.HubPublish? && s.hand != [] {
      ServeKeepsCards(s.hub, SseHub.Broadcast(CARD, marshal(s.hand[0].state)));
      assert s.hand == [s.hand[0]] && t.hand == [];
    } else if a.HubReceive? && t != s {
      TextsOfBoth(marshal, s.subs[HUB].chan.taken, t.hand);
      assert s.hand == [];
    } else if a.Serve? {
      ServeKeepsCards(s.hub, a.served);
    } else if !a.HubPublish? && !a.HubReceive? {
      HubFrame(marshal, s, a);
      hide Next;
      HubSubKept(s, t, MoveOf(s, a, HUB), a);
    }
  }

  lemma HubSubKept(s: State, t: State, m: Move, a: Action)
    requires HUB in s.subs ==> Moves(s, t, HUB, m)
    requires m == MoveOf(s, a, HUB) && !a.HubReceive?
    ensures HUB in s.subs ==>
              t.subs[HUB].chan.taken == s.subs[HUB].chan.taken && t.subs[HUB].capacity == s.subs[HUB].capacity
  {
    hide Published;
  }

  lemma {:induction false} HubRuns(marshal: Marshal, nonce: string, actions: seq<Action>)
    ensures HubInv(marshal, Run(marshal, nonce, actions))
  {
    hide Next, HubInv;
    if actions == [] {
      HubStarts(marshal, nonce);
    } else {
      var n := |actions| - 1;
      HubRuns(marshal, nonce, actions[..n]);
      HubStep(marshal, Run(marshal, nonce, actions[..n]), actions[n]);
    }
  }

  lemma HubStarts(marshal: Marshal, nonce: string)
    ensures HubInv(marshal, Init(nonce))
  {
  }

  /**
    The cards the hub broadcast, with the one in its hand and those in its channel, are the commits
    since it started, in order: all of them exactly while its channel is open.
   */
  lemma {:induction false} HubBroadcastsCommits(marshal: Marshal, nonce: string, actions: seq<Action>)
    requires HUB in Run(marshal, nonce, actions).subs
    ensures var s := Run(marshal, nonce, actions);
            var sub := s.subs[HUB].chan;
            var mine := Cards(s.hub.log) + Texts(marshal, s.hand) + Texts(marshal, sub.buffer);
            sub.from <= |s.log| && |s.hand| <= 1 && |sub.buffer| <= READER_BUFFER &&
            mine <= Texts(marshal, s.log[sub.from..]) &&
            (sub.open ==> mine == Texts(marshal, s.log[sub.from..])) &&
            (Unended(actions, HUB) && !sub.open ==> mine != Texts(marshal, s.log[sub.from..]))
  {
    HubRuns(marshal, nonce, actions);
    RunFollows(marshal, nonce, actions);
    var s := Run(marshal, nonce, actions);
    var sub := s.subs[HUB].chan;
    if Unended(actions, HUB) { NothingLostIff(marshal, nonce, actions, HUB); }
    assert FollowsLog(s.log, sub, READER_BUFFER);
    TextsOfBoth(marshal, sub.taken, sub.buffer);
    hide Run, Cards;
    var rest := s.log[sub.from..][|sub.taken + sub.buffer|..];
    assert s.log[sub.from..] == sub.taken + sub.buffer + rest;
    TextsOfBoth(marshal, sub.taken + sub.buffer, rest);
  }

  /**
    Once its channel was closed the hub broadcasts at most what it holds then, ever: no later commit
    reaches a browser, however many follow.
   */
  lemma {:induction false} HubFallsSilent(marshal: Marshal, nonce: string, actions: seq<Action>, more: seq<Action>)
    requires HUB in Run(marshal, nonce, actions).subs && !Run(marshal, nonce, actions).subs[HUB].chan.open
    ensures var s, t := Run(marshal, nonce, actions), Run(marshal, nonce, actions + more);
            Cards(t.hub.log) <= Cards(s.hub.log) + Texts(marshal, s.hand) + Texts(marshal, s.subs[HUB].chan.buffer)
  {
    var s, t := Run(marshal, nonce, actions), Run(marshal, nonce, actions + more);
    SubKept(marshal, nonce, actions, more, HUB);
    HubRuns(marshal, nonce, actions);
    HubRuns(marshal, nonce, actions + more);
    hide Run, Cards;
    TextsOfBoth(marshal, s.subs[HUB].chan.taken, s.subs[HUB].chan.buffer);
    TextsOfBoth(marshal, t.subs[HUB].chan.taken, t.subs[HUB].chan.buffer);
  }

  // ---------------------------------------------------------------- what a browser gets

  lemma {:induction false} CardsOfBoth(a: seq<SseHub.Event>, b: seq<SseHub.Event>)
    ensures Cards(a + b) == Cards(a) + Cards(b)
    decreases b
  {
    if b == [] {
      assert a + b == a && Cards(a) + [] == Cards(a);
    } else {
      var n, all := |b| - 1, a + b;
      assert all[..|all| - 1] == a + b[..n] && all[|all| - 1] == b[n];
      CardsOfBoth(a, b[..n]);
    }
  }

  /** The hub's part of a continued run. */
  lemma {:induction false} HubTrace(marshal: Marshal, nonce: string, actions: seq<Action>, more: seq<Action>)
    returns (served: seq<SseHub.Action>)
    ensures Run(marshal, nonce, actions + more).hub == SseHub.Run(Run(marshal, nonce, actions).hub, served)
  {
    if more == [] {
      assert actions + more == actions;
      served := [];
    } else {
      var n, all := |more| - 1, actions + more;
      assert all[..|all| - 1] == actions + more[..n];
      hide Next, SseHub.Next;
      served := HubTrace(marshal, nonce, actions, more[..n]);
      var x := HubAction(marshal, Run(marshal, nonce, actions + more[..n]), more[n]);
      if x.Some? {
        assert (served + [x.value])[..|served|] == served;
        served := served + [x.value];
      }
    }
  }

  lemma HubAction(marshal: Marshal, s: State, a: Action) returns (x: Option<SseHub.Action>)
    ensures Next(marshal, s, a).hub == if x.Some? then SseHub.Next(s.hub, x.value) else s.hub
  {
    hide Published, Scheduler.Next, SseHub.Next, OfferAll, Closed;
    if a.HubPublish? && s.hand != [] {
      x := Some(SseHub.Broadcast(CARD, marshal(s.hand[0].state)));
    } else if a.Serve? && !(a.served.Broadcast? && a.served.name == CARD) {
      x := Some(a.served);
    } else {
      x := None;
    }
  }

  lemma {:induction false} HubKeepsInv(marshal: Marshal, nonce: string, actions: seq<Action>)
    ensures SseHub.Inv(Run(marshal, nonce, actions).hub)
  {
    var served := HubTrace(marshal, nonce, [], actions);
    assert [] + actions == actions;
    hide SseHub.Inv, SseHub.Run, Next;
    SseHub.EveryRun(nonce, served);
  }

  /** The first commit whose card the log has at or after position k, counted from the hub's start. */
  function CommitAt(s: State, k: nat): nat
    requires HUB in s.subs && k <= |s.hub.log|
  {
    s.subs[HUB].chan.from + |Cards(s.hub.log[..k])|
  }

  /** The card events are the commits from position k on: all of them but those the hub still holds. */
  ghost predicate HasCommitsFrom(marshal: Marshal, s: State, k: nat, st: Channel<SseHub.Event>)
    requires HUB in s.subs && k <= |s.hub.log|
  {
    var first, sub, got := CommitAt(s, k), s.subs[HUB].chan, Cards(st.taken + st.buffer);
    first <= |s.log| && Cards(s.hub.log[..k]) == Texts(marshal, s.log[sub.from..first]) &&
    got <= Texts(marshal, s.log[first..]) &&
    (st.open && sub.open ==>
       got + Texts(marshal, s.hand) + Texts(marshal, sub.buffer) == Texts(marshal, s.log[first..]))
  }

  lemma {:induction false} StreamHasCommits(
      marshal: Marshal, nonce: string, actions: seq<Action>, k: nat, st: Channel<SseHub.Event>)
    requires var s := Run(marshal, nonce, actions);
             HUB in s.subs && k <= |s.hub.log| && st.taken + st.buffer <= s.hub.log[k..] &&
             (st.open ==> st.taken + st.buffer == s.hub.log[k..])
    ensures HasCommitsFrom(marshal, Run(marshal, nonce, actions), k, st)
  {
    HubBroadcastsCommits(marshal, nonce, actions);
    hide Run, Cards, Texts, HasCommitsFrom;
    HeldCommits(marshal, Run(marshal, nonce, actions), k, st);
  }

  lemma {:induction false} HeldCommits(marshal: Marshal, s: State, k: nat, st: Channel<SseHub.Event>)
    requires HUB in s.subs && k <= |s.hub.log| && st.taken + st.buffer <= s.hub.log[k..]
    requires st.open ==> st.taken + st.buffer == s.hub.log[k..]
    requires var sub := s.subs[HUB].chan;
             var mine := Cards(s.hub.log) + Texts(marshal, s.hand) + Texts(marshal, sub.buffer);
             sub.from <= |s.log| && mine <= Texts(marshal, s.log[sub.from..]) &&
             (sub.open ==> mine == Texts(marshal, s.log[sub.from..]))
    ensures HasCommitsFrom(marshal, s, k, st)
  {
    hide Cards, Texts;
    var sub, cards := s.subs[HUB].chan, Cards(s.hub.log);
    var before, got := Cards(s.hub.log[..k]), Cards(st.taken + st.buffer);
    CardsCut(s.hub.log, k, st.taken + st.buffer);
    Delivered(marshal, before, got, cards, Texts(marshal, s.hand), Texts(marshal, sub.buffer), s.log[sub.from..]);
    Slices(s.log, sub.from, |before|);
  }

  lemma Slices<T>(log: seq<T>, from: nat, n: nat)
    requires from + n <= |log|
    ensures log[from..][..n] == log[from..from + n] && log[from..][n..] == log[from + n..]
  {
  }

  /** What follows the cards before a position, when cards, hand and buffer begin the commits. */
  lemma Delivered(marshal: Marshal, before: seq<string>, got: seq<string>, cards: seq<string>,
                  hand: seq<string>, buffer: seq<string>, commits: seq<Event>)
    requires before + got <= cards && cards + hand + buffer <= Texts(marshal, commits)
    ensures var n := |before|;
            n <= |commits| && before == Texts(marshal, commits[..n]) && got <= Texts(marshal, commits[n..]) &&
            (before + got == cards && cards + hand + buffer == Texts(marshal, commits) ==>
               got + hand + buffer == Texts(marshal, commits[n..]))
  {
    var mine, all := cards + hand + buffer, Texts(marshal, commits);
    assert before + got <= mine by { assert mine[..|cards|] == cards; }
    assert before <= all by { assert all[..|before|] == (before + got)[..|before|]; }
    TextsCut(marshal, commits, before);
    hide Texts;
    var rest := Texts(marshal, commits[|before|..]);
    CommitsHeld(before, got, rest, all);
    if before + got == cards && mine == all {
      assert mine == before + (got + hand + buffer);
      CommitsLeft(before, got + hand + buffer, rest, all);
    }
  }

  lemma CardsCut(h: seq<SseHub.Event>, k: nat, held: seq<SseHub.Event>)
    requires k <= |h| && held <= h[k..]
    ensures Cards(h[..k]) + Cards(held) <= Cards(h)
    ensures held == h[k..] ==> Cards(h[..k]) + Cards(held) == Cards(h)
  {
    hide Cards;
    var rest := h[k..][|held|..];
    assert h == h[..k] + h[k..] && h[k..] == held + rest;
    CardsOfBoth(h[..k], h[k..]);
    CardsOfBoth(held, rest);
    assert Cards(h) == Cards(h[..k]) + Cards(held) + Cards(rest);
  }

  lemma TextsCut(marshal: Marshal, events: seq<Event>, before: seq<string>)
    requires before <= Texts(marshal, events)
    ensures |before| <= |events| && before == Texts(marshal, events[..|before|])
    ensures Texts(marshal, events) == before + Texts(marshal, events[|before|..])
  {
    TextsOfBoth(marshal, events[..|before|], events[|before|..]);
    assert events == events[..|before|] + events[|before|..];
  }

  lemma CommitsHeld<T>(a: seq<T>, b: seq<T>, rest: seq<T>, all: seq<T>)
    requires a + b <= all && all == a + rest
    ensures b <= rest
  {
    assert all[|a|..] == rest && all[|a|..][..|b|] == b;
  }

  lemma CommitsLeft<T>(a: seq<T>, b: seq<T>, rest: seq<T>, all: seq<T>)
    requires all == a + b && all == a + rest
    ensures b == rest
  {
    assert all[|a|..] == rest && all[|a|..] == b;
  }

  /**
    End to end: a browser that resumes after a retained event gets, as card events, exactly the
    commits after the last one that event's log had: in every later state, all of them but those the
    hub still holds while its stream and the hub's channel are open, a beginning of them after.
   */
  lemma {:induction false} BrowserGetsCommits(
      marshal: Marshal, nonce: string, actions: seq<Action>, p: nat, ch: nat, last: string, session: string,
      more: seq<Action>)
    requires var s := Run(marshal, nonce, actions);
             HUB in s.subs && ch !in s.hub.streams && !SseHub.Refused(s.hub, session) &&
             SseHub.Retained(s.hub, p, last)
    ensures var t := Run(marshal, nonce, actions + [Serve(SseHub.Subscribe(ch, last, session))] + more);
            HUB in t.subs && ch in t.hub.streams && p < |t.hub.log| && t.hub.log[p].id == last &&
            HasCommitsFrom(marshal, t, p + 1, t.hub.streams[ch].chan)
  {
    var s, x := Run(marshal, nonce, actions), SseHub.Subscribe(ch, last, session);
    var first := actions + [Serve(x)];
    RunOneMore(marshal, nonce, actions, Serve(x));
    assert Run(marshal, nonce, first).hub == SseHub.Next(s.hub, x) && Run(marshal, nonce, first).subs == s.subs;
    hide Run, Next, SseHub.Inv, SseHub.Refused, SseHub.Retained, SseHub.Next, SseHub.Run, HasCommitsFrom, Cards;
    HubKeepsInv(marshal, nonce, actions);
    var served := HubTrace(marshal, nonce, first, more);
    SubKept(marshal, nonce, first, more, HUB);
    SseHub.ResumeIsExact(s.hub, p, ch, last, session, served);
    StreamHasCommits(marshal, nonce, first + more, p + 1, Run(marshal, nonce, first + more).hub.streams[ch].chan);
  }

  /** Any other browser gets a reset, and then exactly the commits whose cards are broadcast after it subscribed. */
  lemma {:induction false} FreshBrowserGetsCommits(
      marshal: Marshal, nonce: string, actions: seq<Action>, ch: nat, last: string, session: string, more: seq<Action>)
    requires var s := Run(marshal, nonce, actions);
             HUB in s.subs && ch !in s.hub.streams && !SseHub.Refused(s.hub, session) && SseHub.Reset(s.hub, last)
    ensures var s := Run(marshal, nonce, actions);
            var t := Run(marshal, nonce, actions + [Serve(SseHub.Subscribe(ch, last, session))] + more);
            HUB in t.subs && ch in t.hub.streams && |s.hub.log| <= |t.hub.log| &&
            HasCommitsFrom(marshal, t, |s.hub.log|, t.hub.streams[ch].chan)
  {
    var s, x := Run(marshal, nonce, actions), SseHub.Subscribe(ch, last, session);
    var first := actions + [Serve(x)];
    RunOneMore(marshal, nonce, actions, Serve(x));
    assert Run(marshal, nonce, first).hub == SseHub.Next(s.hub, x) && Run(marshal, nonce, first).subs == s.subs;
    hide Run, Next, SseHub.Inv, SseHub.Refused, SseHub.Reset, SseHub.Next, SseHub.Run, HasCommitsFrom, Cards;
    HubKeepsInv(marshal, nonce, actions);
    var served := HubTrace(marshal, nonce, first, more);
    SubKept(marshal, nonce, first, more, HUB);
    SseHub.ResetStartsNow(s.hub, ch, last, session, served);
    StreamHasCommits(
      marshal, nonce, first + more, |s.hub.log|, Run(marshal, nonce, first + more).hub.streams[ch].chan);
  }

  // ---------------------------------------------------------------- when the rules are evaluated

  /** The commits the rules were evaluated for and the one due are what the rule manager took from its channel. */
  ghost predicate RulesInv(s: State) {
    |s.rules.due| <= 1 &&
    (RULES !in s.subs ==> s.rules.due == [] && s.rules.triggered == []) &&
    (RULES in s.subs ==> s.subs[RULES].capacity == READER_BUFFER &&
                         s.rules.triggered + s.rules.due == s.subs[RULES].chan.taken)
  }

  lemma RulesFrame(marshal: Marshal, s: State, a: Action)
    ensures var r, t := s.rules, Next(marshal, s, a).rules;
            if a.RulesRun? then t.due == [] && t.triggered == r.triggered + r.due
            else if a.RulesReceive? && r.due == [] && Readable(s, RULES)
            then t.due == [s.subs[RULES].chan.buffer[0]] && t.triggered == r.triggered
            else t.due == r.due && t.triggered == r.triggered
  {
    hide Published, Scheduler.Next, SseHub.Next, OfferAll, Closed;
  }

  lemma {:induction false} RulesStep(marshal: Marshal, s: State, a: Action)
    requires RulesInv(s)
    ensures RulesInv(Next(marshal, s, a))
  {
    var t := Next(marshal, s, a);
    SubStep(marshal, s, a, RULES);
    RulesFrame(marshal, s, a);
    RulesNewSub(marshal, s, a);
    hide Next, Published;
    if RULES in s.subs && t.rules.due != s.rules.due && !a.RulesRun? {
      assert s.rules.triggered + s.rules.due == s.rules.triggered;
    } else if a.RulesRun? {
      assert t.rules.triggered + t.rules.due == s.rules.triggered + s.rules.due;
    }
  }

  lemma RulesNewSub(marshal: Marshal, s: State, a: Action)
    ensures RULES !in s.subs && RULES in Next(marshal, s, a).subs ==> a.StartRules?
  {
    hide Published, Scheduler.Next, SseHub.Next;
  }

  lemma {:induction false} RulesRuns(marshal: Marshal, nonce: string, actions: seq<Action>)
    ensures RulesInv(Run(marshal, nonce, actions))
  {
    hide Next, RulesInv;
    if actions == [] {
      RulesStart(nonce);
    } else {
      var n := |actions| - 1;
      RulesRuns(marshal, nonce, actions[..n]);
      RulesStep(marshal, Run(marshal, nonce, actions[..n]), actions[n]);
    }
  }

  lemma RulesStart(nonce: string)
    ensures RulesInv(Init(nonce))
  {
  }

  /**
    Once its channel was closed the rule manager evaluates for at most what it holds then: no later
    commit has the rules evaluated. Timers and calls still do.
   */
  lemma {:induction false} RulesFallDeaf(marshal: Marshal, nonce: string, actions: seq<Action>, more: seq<Action>)
    requires RULES in Run(marshal, nonce, actions).subs && !Run(marshal, nonce, actions).subs[RULES].chan.open
    ensures var s, t := Run(marshal, nonce, actions), Run(marshal, nonce, actions + more);
            t.rules.triggered <= s.rules.triggered + s.rules.due + s.subs[RULES].chan.buffer
  {
    SubKept(marshal, nonce, actions, more, RULES);
    RulesRuns(marshal, nonce, actions);
    RulesRuns(marshal, nonce, actions + more);
    hide Run;
  }

  /** What the last evaluation read, and that it came after every commit the rules were evaluated for. */
  ghost predicate SeenInv(s: State) {
    s.rules.seen <= |s.log| &&
    (s.rules.active && !s.rules.stopped && !s.rules.owed ==>
       forall i | 0 <= i < |s.rules.triggered| :: s.rules.triggered[i].id <= s.rules.seen) &&
    (s.rules.seen == |s.log| && s.rules.generation == s.sched.generation ==> s.rules.snapshot == s.sched.states)
  }

  /** Every commit the rules were, or are to be, evaluated for has happened. */
  ghost predicate TriggersHappened(s: State) {
    (forall i | 0 <= i < |s.rules.triggered| :: s.rules.triggered[i].id <= |s.log|) &&
    forall i | 0 <= i < |s.rules.due| :: s.rules.due[i].id <= |s.log|
  }

  lemma {:induction false} RunTriggers(marshal: Marshal, nonce: string, actions: seq<Action>)
    ensures TriggersHappened(Run(marshal, nonce, actions))
  {
    LogIsCommits(marshal, nonce, actions);
    RunFollows(marshal, nonce, actions);
    RulesRuns(marshal, nonce, actions);
    var s := Run(marshal, nonce, actions);
    hide Run, Scheduler.Run, Commits, Scheduled, States;
    if RULES in s.subs {
      var chan, all := s.subs[RULES].chan, s.rules.triggered + s.rules.due;
      assert FollowsLog(s.log, chan, READER_BUFFER);
      forall i | 0 <= i < |all| ensures all[i].id <= |s.log| {
        assert all[i] == (chan.taken + chan.buffer)[i] == s.log[chan.from..][i] == s.log[chan.from + i];
      }
      forall i | 0 <= i < |s.rules.triggered| ensures s.rules.triggered[i].id <= |s.log| {
        assert all[i] == s.rules.triggered[i];
      }
      forall i | 0 <= i < |s.rules.due| ensures s.rules.due[i].id <= |s.log| {
        assert all[|s.rules.triggered| + i] == s.rules.due[i];
      }
    }
  }

  /** The visible states change only by a commit, which is logged, or under a new generation. */
  lemma QuietStates(s: Scheduler.Sched, a: Scheduler.Action)
    ensures var t := Scheduler.Next(s, a);
            s.generation <= t.generation &&
            (Published(s, a).None? && t.generation == s.generation ==> t.states == s.states)
  {
    PublishedIsVisible(s, a);
    hide Scheduler.Prepared, Published, Scheduler.Step, Scheduler.Acceptable;
    if a.Refresh? && a.t < |s.threads| { SameGeneration(s, a.t, a.op); }
  }

  lemma SameGeneration(s: Scheduler.Sched, t: nat, op: Scheduler.Op)
    requires t < |s.threads|
    ensures Scheduler.Step(s, t, op).generation == s.generation
  {
    hide Scheduler.FlightKey, Scheduler.Superseded;
  }

  lemma {:induction false} SeenStep(marshal: Marshal, s: State, a: Action)
    requires SeenInv(s) && TriggersHappened(s) && s.rules.generation <= s.sched.generation
    ensures var t := Next(marshal, s, a); SeenInv(t) && t.rules.generation <= t.sched.generation
  {
    if a.Schedule? { QuietStates(s.sched, a.step); }
    hide Published, Scheduler.Next, SseHub.Next, OfferAll, Closed;
  }

  lemma {:induction false} RunSeen(marshal: Marshal, nonce: string, actions: seq<Action>)
    ensures var s := Run(marshal, nonce, actions); SeenInv(s) && s.rules.generation <= s.sched.generation
  {
    hide Next, TriggersHappened;
    if actions != [] {
      var n := |actions| - 1;
      RunSeen(marshal, nonce, actions[..n]);
      RunTriggers(marshal, nonce, actions[..n]);
      hide SeenInv;
      SeenStep(marshal, Run(marshal, nonce, actions[..n]), actions[n]);
    }
  }

  /**
    While its channel is open, an active rule manager that has nothing left to read has evaluated for
    every commit since it started, in order, and its last evaluation read a snapshot with the last
    commit in it: the states visible now, unless a configuration was applied since.
   */
  lemma {:induction false} RulesCatchUp(marshal: Marshal, nonce: string, actions: seq<Action>)
    requires var s := Run(marshal, nonce, actions);
             RULES in s.subs && s.subs[RULES].chan.open && s.subs[RULES].chan.buffer == [] && s.rules.due == [] &&
             s.rules.active && !s.rules.stopped && !s.rules.owed
    ensures var s := Run(marshal, nonce, actions);
            var from := s.subs[RULES].chan.from;
            from <= |s.log| && s.rules.triggered == s.log[from..] &&
            (from < |s.log| ==>
               s.rules.seen == |s.log| &&
               (s.rules.generation == s.sched.generation ==> s.rules.snapshot == s.sched.states))
  {
    LogIsCommits(marshal, nonce, actions);
    RunFollows(marshal, nonce, actions);
    RulesRuns(marshal, nonce, actions);
    RunSeen(marshal, nonce, actions);
    var s := Run(marshal, nonce, actions);
    hide Run, Scheduler.Run, Commits, Scheduled, States;
    var chan := s.subs[RULES].chan;
    assert FollowsLog(s.log, chan, READER_BUFFER);
    assert s.rules.triggered == chan.taken == chan.taken + chan.buffer;
    if chan.from < |s.log| {
      var n := |s.log| - 1 - chan.from;
      assert s.rules.triggered[n] == s.log[|s.log| - 1];
    }
  }

  // ---------------------------------------------------------------- a burst that neither reader survives

  const CARD_DEF := Scheduler.Def("c", "", 1)

  /** Both readers start, one card is configured, and n refreshes commit before either goroutine runs. */
  function Burst(n: nat): seq<Action> {
    if n == 0 then [StartHub, StartRules, Schedule(Scheduler.Apply([Scheduler.Spec("c", "")]))]
    else
      Burst(n - 1) +
      [Schedule(Scheduler.Call(CARD_DEF)), Schedule(Scheduler.Refresh(n - 1, Scheduler.Check)),
       Schedule(Scheduler.Refresh(n - 1, Scheduler.CommitDisabled(true)))]
  }

  function BurstLog(n: nat): (log: seq<Event>)
    ensures |log| == n
  {
    seq(n, i requires 0 <= i < n => Event(i + 1, Scheduler.Disabled(CARD_DEF)))
  }

  function BurstSub(n: nat): Sub {
    Sub(READER_BUFFER, Channel(0, [], BurstLog(if n <= READER_BUFFER then n else READER_BUFFER), n <= READER_BUFFER))
  }

  ghost predicate AfterBurst(s: State, n: nat) {
    s.log == BurstLog(n) && s.hand == [] && s.sched.defs == map["c" := CARD_DEF] && CARD_DEF in s.sched.known &&
    |s.sched.threads| == n && HUB in s.subs &&
    s.subs[HUB] == BurstSub(n) && RULES in s.subs && s.subs[RULES] == BurstSub(n) && s.rules.due == [] &&
    s.rules.triggered == []
  }

  lemma {:induction false} BurstIs(marshal: Marshal, nonce: string, n: nat)
    ensures AfterBurst(Run(marshal, nonce, Burst(n)), n)
  {
    hide Run, Next, AfterBurst;
    if n == 0 {
      FirstBurst(marshal, nonce);
    } else {
      BurstIs(marshal, nonce, n - 1);
      var b := Burst(n - 1);
      var x, y, z := Schedule(Scheduler.Call(CARD_DEF)), Schedule(Scheduler.Refresh(n - 1, Scheduler.Check)),
                     Schedule(Scheduler.Refresh(n - 1, Scheduler.CommitDisabled(true)));
      BurstOneMore(n);
      RunOneMore(marshal, nonce, b, x);
      RunOneMore(marshal, nonce, b + [x], y);
      RunOneMore(marshal, nonce, b + [x] + [y], z);
      OneRefresh(marshal, Run(marshal, nonce, b), n - 1);
    }
  }

  lemma BurstOneMore(n: nat)
    requires n > 0
    ensures Burst(n) == Burst(n - 1) + [Schedule(Scheduler.Call(CARD_DEF))] +
                        [Schedule(Scheduler.Refresh(n - 1, Scheduler.Check))] +
                        [Schedule(Scheduler.Refresh(n - 1, Scheduler.CommitDisabled(true)))]
  {
  }

  lemma RunOneMore(marshal: Marshal, nonce: string, actions: seq<Action>, a: Action)
    ensures Run(marshal, nonce, actions + [a]) == Next(marshal, Run(marshal, nonce, actions), a)
  {
    hide Next;
    assert (actions + [a])[..|actions|] == actions;
  }

  lemma FirstBurst(marshal: Marshal, nonce: string)
    ensures AfterBurst(Run(marshal, nonce, Burst(0)), 0)
  {
    var b := Burst(0);
    var specs := [Scheduler.Spec("c", "")];
    assert b == [] + [StartHub] + [StartRules] + [Schedule(Scheduler.Apply(specs))];
    RunOneMore(marshal, nonce, [], StartHub);
    RunOneMore(marshal, nonce, [] + [StartHub], StartRules);
    RunOneMore(marshal, nonce, [] + [StartHub] + [StartRules], Schedule(Scheduler.Apply(specs)));
    assert specs[..0] == [];
    assert Scheduler.Prepared(specs, 1) == map["c" := CARD_DEF];
    assert "c" in map["c" := CARD_DEF];
  }

  lemma OneRefresh(marshal: Marshal, s: State, n: nat)
    requires AfterBurst(s, n)
    ensures var call := Next(marshal, s, Schedule(Scheduler.Call(CARD_DEF)));
            var check := Next(marshal, call, Schedule(Scheduler.Refresh(n, Scheduler.Check)));
            AfterBurst(Next(marshal, check, Schedule(Scheduler.Refresh(n, Scheduler.CommitDisabled(true)))), n + 1)
  {
    var call := Next(marshal, s, Schedule(Scheduler.Call(CARD_DEF)));
    var check := Next(marshal, call, Schedule(Scheduler.Refresh(n, Scheduler.Check)));
    assert check.sched.threads[n] == Scheduler.Thread(CARD_DEF, Scheduler.Checked);
    var e := Event(n + 1, Scheduler.Disabled(CARD_DEF));
    assert BurstLog(n) + [e] == BurstLog(n + 1);
  }

  /**
    Thirty-three commits before the readers read one: whatever follows, at most thirty-two cards are
    broadcast and at most thirty-two commits have the rules evaluated.
   */
  lemma {:induction false} BurstSilencesReaders(marshal: Marshal, nonce: string, more: seq<Action>)
    ensures var b := Burst(READER_BUFFER + 1);
            var s, t := Run(marshal, nonce, b), Run(marshal, nonce, b + more);
            |s.log| == READER_BUFFER + 1 && |s.log| <= |t.log| && |Cards(t.hub.log)| <= READER_BUFFER &&
            |t.rules.triggered| <= READER_BUFFER
  {
    var b := Burst(READER_BUFFER + 1);
    BurstIs(marshal, nonce, READER_BUFFER + 1);
    hide Run, Cards, Burst;
    HubRuns(marshal, nonce, b);
    HubFallsSilent(marshal, nonce, b, more);
    RulesFallDeaf(marshal, nonce, b, more);
    SubKept(marshal, nonce, b, more, HUB);
  }

  // ---------------------------------------------------------------- the code

  datatype Chan = Chan(capacity: nat, buffer: seq<Event>)

  function Chans(subs: map<nat, Sub>): map<nat, Chan> {
    map c | c in subs :: Chan(subs[c].capacity, subs[c].chan.buffer)
  }

  function Live(subs: map<nat, Sub>): set<nat> { set c | c in subs && subs[c].chan.open }

  /** The subscribers in `todo` have not been offered the event yet. */
  ghost predicate Halfway(was: map<nat, Sub>, e: Event, todo: set<nat>, subs: set<nat>, chans: map<nat, Chan>) {
    todo <= Live(was) && chans.Keys == was.Keys && subs <= was.Keys &&
    forall c | c in was :: var chan := if c in todo then was[c].chan else Offered(was[c].chan, was[c].capacity, e);
      chans[c] == Chan(was[c].capacity, chan.buffer) && (c in subs <==> chan.open)
  }

  lemma HalfwayStart(was: map<nat, Sub>, e: Event)
    ensures Halfway(was, e, Live(was), Live(was), Chans(was))
  {
  }

  lemma HalfwayStep(was: map<nat, Sub>, e: Event, todo: set<nat>, subs: set<nat>, chans: map<nat, Chan>, ch: nat)
    requires Halfway(was, e, todo, subs, chans) && ch in todo
    ensures ch in chans
    ensures var c := chans[ch];
            if |c.buffer| < c.capacity
            then Halfway(was, e, todo - {ch}, subs, chans[ch := c.(buffer := c.buffer + [e])])
            else Halfway(was, e, todo - {ch}, subs - {ch}, chans)
  {
  }

  lemma HalfwayEnd(was: map<nat, Sub>, e: Event, subs: set<nat>, chans: map<nat, Chan>)
    requires Halfway(was, e, {}, subs, chans)
    ensures subs == Live(OfferAll(was, e)) && chans == Chans(OfferAll(was, e))
  {
  }

  /** The manager's subscriptions: the live channels, and what each channel holds. */
  class Publisher {
    var nextID: nat
    var subs: set<nat>
    var chans: map<nat, Chan>
    ghost var log: seq<Event>
    ghost var model: map<nat, Sub>

    ghost predicate Valid()
      reads this
    {
      nextID == |log| && subs == Live(model) && chans == Chans(model)
    }

    constructor ()
      ensures Valid() && log == [] && model == map[]
    {
      nextID, subs, chans, log, model := 0, {}, map[], [], map[];
    }

    /** The end of commitWithHistory, over the subscribers in any order. */
    method Publish(v: Scheduler.Visible)
      requires Valid()
      modifies this
      ensures Valid()
      ensures var e := Event(|old(log)| + 1, v); log == old(log) + [e] && model == OfferAll(old(model), e)
    {
      hide Live, Chans, OfferAll, Halfway;
      nextID := nextID + 1;
      var ev := Event(nextID, v);
      var todo := subs;
      HalfwayStart(model, ev);
      while todo != {}
        invariant Halfway(model, ev, todo, subs, chans)
        invariant nextID == ev.id && log == old(log) && model == old(model)
        decreases |todo|
      {
        var ch :| ch in todo;
        HalfwayStep(model, ev, todo, subs, chans, ch);
        if |chans[ch].buffer| < chans[ch].capacity {
          chans := chans[ch := chans[ch].(buffer := chans[ch].buffer + [ev])];
        } else {
          subs := subs - {ch};
        }
        todo := todo - {ch};
      }
      HalfwayEnd(model, ev, subs, chans);
      log, model := log + [ev], OfferAll(model, ev);
    }

    method SubscribeTo(ch: nat, buffer: int)
      requires Valid() && ch !in model
      modifies this
      ensures Valid() && log == old(log)
      ensures model == old(model)[ch := NewSub(buffer, |log|)]
    {
      var size := buffer;
      if size < 1 { size := 1; }
      chans := chans[ch := Chan(size, [])];
      subs := subs + {ch};
      model := model[ch := NewSub(buffer, |log|)];
    }

    /** The closure Subscribe returns. */
    method CancelSubscription(ch: nat)
      requires Valid() && ch in model
      modifies this
      ensures Valid() && log == old(log) && model == With(old(model), ch, Shut(old(model)[ch].chan))
    {
      if ch in subs { subs := subs - {ch}; }
      model := With(model, ch, Shut(model[ch].chan));
    }

    /** Manager.Close. */
    method CloseAll()
      requires Valid()
      modifies this
      ensures Valid() && log == old(log) && model == Closed(old(model))
    {
      ghost var was := subs;
      while subs != {}
        invariant subs <= was && chans == Chans(model) && log == old(log) && nextID == |log| && model == old(model)
        decreases |subs|
      {
        var ch :| ch in subs;
        subs := subs - {ch};
      }
      model := Closed(model);
    }
  }
}
