/**
  The server-sent-event hub (internal/api/sse.go): a 256-entry replay ring, bounded client
  channels that are dropped when full, and per-session counters, against the unbounded log of
  everything broadcast.
 */
module SseHub {
  import opened Channels
  import opened Decimals

  const REPLAY_SIZE := 256
  const MAX_CLIENTS := 128
  const MAX_PER_SESSION := 4
  const CHANNEL_SIZE := 32

  datatype Event = Event(id: string, name: string, data: string)

  /** One stream: the session that owns it and its channel; the replay is what its reader is given first. */
  datatype Stream = Stream(session: string, chan: Channel<Event>)

  datatype State = State(
    nonce: string, log: seq<Event>, ring: seq<Event>, streams: map<nat, Stream>, sessions: map<string, nat>)

  datatype Action =
    | Broadcast(name: string, data: string)
    | Subscribe(ch: nat, last: string, session: string)
    | Done(ch: nat)
    | Receive(ch: nat)

  function Init(nonce: string): State { State(nonce, [], [], map[], map[]) }

  function EventId(nonce: string, n: nat): string { nonce + ['-'] + Decimal(n) }

  // ---------------------------------------------------------------- counting

  function Having(clients: map<nat, string>, x: string): set<nat> {
    set c | c in clients && clients[c] == x
  }

  /** Live streams per session; a request without a session is not counted. */
  function Counts(clients: map<nat, string>): map<string, nat> {
    map x | x in clients.Values && x != "" :: |Having(clients, x)|
  }

  function CountOf(sessions: map<string, nat>, x: string): nat { if x in sessions then sessions[x] else 0 }

  lemma CountsAre(clients: map<nat, string>, x: string)
    requires x != ""
    ensures CountOf(Counts(clients), x) == |Having(clients, x)|
    ensures x in Counts(clients) <==> Having(clients, x) != {}
  {
    if x in clients.Values {
      var c :| c in clients && clients[c] == x;
      assert c in Having(clients, x);
    } else {
      forall c | c in clients ensures clients[c] != x { assert clients[c] in clients.Values; }
      assert Having(clients, x) == {};
    }
  }

  // ---------------------------------------------------------------- the model

  function Live(streams: map<nat, Stream>): map<nat, string> {
    map c | c in streams && streams[c].chan.open :: streams[c].session
  }

  function Buffers(streams: map<nat, Stream>): map<nat, seq<Event>> {
    map c | c in streams :: streams[c].chan.buffer
  }

  function Trim(ring: seq<Event>): seq<Event> {
    if |ring| > REPLAY_SIZE then ring[|ring| - REPLAY_SIZE..] else ring
  }

  function OfferAll(streams: map<nat, Stream>, e: Event): map<nat, Stream> {
    map c | c in streams :: streams[c].(chan := Offered(streams[c].chan, CHANNEL_SIZE, e))
  }

  predicate Refused(s: State, session: string) {
    |Live(s.streams)| >= MAX_CLIENTS || (session != "" && CountOf(s.sessions, session) >= MAX_PER_SESSION)
  }

  /** Position in the ring just after the event named by `last`, searching from the oldest. */
  function After(ring: seq<Event>, last: string, i: nat): (k: int)
    requires i <= |ring|
    ensures k == -1 || (i < k <= |ring| && ring[k - 1].id == last)
    ensures k == -1 <==> forall j | i <= j < |ring| :: ring[j].id != last
    decreases |ring| - i
  {
    if i == |ring| then -1 else if ring[i].id == last then i + 1 else After(ring, last, i + 1)
  }

  predicate Reset(s: State, last: string) { last == "" || After(s.ring, last, 0) == -1 }

  function Replay(s: State, last: string): seq<Event> {
    if Reset(s, last) then [] else s.ring[After(s.ring, last, 0)..]
  }

  function AfterBroadcast(s: State, name: string, data: string): State {
    var e := Event(EventId(s.nonce, |s.log| + 1), name, data);
    var streams := OfferAll(s.streams, e);
    State(s.nonce, s.log + [e], Trim(s.ring + [e]), streams, Counts(Live(streams)))
  }

  function NewStream(s: State, last: string, session: string): Stream {
    var replay := Replay(s, last);
    Stream(session, Channel(if |replay| <= |s.log| then |s.log| - |replay| else 0, replay, [], true))
  }

  function AfterSubscribe(s: State, ch: nat, last: string, session: string): State {
    if ch in s.streams || Refused(s, session) then s
    else
      var streams := s.streams[ch := NewStream(s, last, session)];
      State(s.nonce, s.log, s.ring, streams, Counts(Live(streams)))
  }

  function AfterDone(s: State, ch: nat): State {
    if ch !in s.streams || !s.streams[ch].chan.open then s
    else
      var streams := With(s.streams, ch, Shut(s.streams[ch].chan));
      State(s.nonce, s.log, s.ring, streams, Counts(Live(streams)))
  }

  /** The streams with one channel replaced. */
  function With(streams: map<nat, Stream>, ch: nat, chan: Channel<Event>): map<nat, Stream>
    requires ch in streams
  {
    streams[ch := streams[ch].(chan := chan)]
  }

  function AfterReceive(s: State, ch: nat): State {
    if ch !in s.streams || s.streams[ch].chan.buffer == [] then s
    else State(s.nonce, s.log, s.ring, With(s.streams, ch, Taken(s.streams[ch].chan)), s.sessions)
  }

  function Next(s: State, a: Action): State {
    match a
    case Broadcast(name, data) => AfterBroadcast(s, name, data)
    case Subscribe(ch, last, session) => AfterSubscribe(s, ch, last, session)
    case Done(ch) => AfterDone(s, ch)
    case Receive(ch) => AfterReceive(s, ch)
  }

  function Run(s: State, actions: seq<Action>): State {
    if actions == [] then s else Next(Run(s, actions[..|actions| - 1]), actions[|actions| - 1])
  }

  // ---------------------------------------------------------------- invariants of every run

  ghost predicate NumberedLog(nonce: string, log: seq<Event>) {
    forall i | 0 <= i < |log| :: log[i].id == EventId(nonce, i + 1)
  }

  /** The ring is the end of the log. */
  ghost predicate RingIsTail(ring: seq<Event>, log: seq<Event>) {
    |ring| == (if |log| <= REPLAY_SIZE then |log| else REPLAY_SIZE) && ring == log[|log| - |ring|..]
  }

  ghost predicate StreamsFollowLog(log: seq<Event>, streams: map<nat, Stream>) {
    forall c | c in streams :: FollowsLog(log, streams[c].chan, CHANNEL_SIZE)
  }

  ghost predicate WithinLimits(streams: map<nat, Stream>, sessions: map<string, nat>) {
    sessions == Counts(Live(streams)) && |Live(streams)| <= MAX_CLIENTS &&
    forall x | x in sessions :: 1 <= sessions[x] <= MAX_PER_SESSION
  }

  ghost predicate Inv(s: State) {
    NumberedLog(s.nonce, s.log) && RingIsTail(s.ring, s.log) && StreamsFollowLog(s.log, s.streams) &&
    WithinLimits(s.streams, s.sessions)
  }

  /** Event ids name log positions: no two events share one, and none is empty. */
  lemma {:induction false} EventIdInjective(nonce: string, n: nat, m: nat)
    ensures EventId(nonce, n) != ""
    ensures EventId(nonce, n) == EventId(nonce, m) ==> n == m
  {
    if EventId(nonce, n) == EventId(nonce, m) {
      Cancel(nonce + ['-'], Decimal(n), Decimal(m));
      assert Decimal(n) + [] == Decimal(m) + [];
      DecimalReadable(n, [], m, []);
    }
  }

  lemma {:induction false} TrimIsTail(ring: seq<Event>, log: seq<Event>, e: Event)
    requires RingIsTail(ring, log)
    ensures RingIsTail(Trim(ring + [e]), log + [e])
  {
    var base := |log| - |ring|;
    AppendTail(log, base, e);
  }

  lemma AppendTail<T>(log: seq<T>, base: nat, e: T)
    requires base <= |log|
    ensures log[base..] + [e] == (log + [e])[base..]
  {
  }

  /** Closing streams keeps the counters exact and bounded. */
  lemma {:induction false} FewerLive(before: map<nat, Stream>, sessions: map<string, nat>, after: map<nat, Stream>)
    requires WithinLimits(before, sessions) && after.Keys == before.Keys
    requires forall c | c in after :: after[c].session == before[c].session
    requires forall c | c in after :: after[c].chan.open ==> before[c].chan.open
    ensures WithinLimits(after, Counts(Live(after)))
  {
    var a, b := Live(before), Live(after);
    assert b.Keys <= a.Keys;
    Smaller(b.Keys, a.Keys);
    forall x | x in Counts(b) ensures 1 <= Counts(b)[x] <= MAX_PER_SESSION {
      CountsAre(a, x);
      CountsAre(b, x);
      assert Having(b, x) <= Having(a, x);
      Smaller(Having(b, x), Having(a, x));
    }
  }

  lemma {:induction false} Smaller<T>(a: set<T>, b: set<T>)
    requires a <= b
    ensures |a| <= |b|
  {
    if a != {} {
      var x :| x in a;
      Smaller(a - {x}, b - {x});
    }
  }

  lemma {:induction false} CountAfterAdd(a: map<nat, string>, ch: nat, session: string, x: string)
    requires ch !in a && x != ""
    ensures |Having(a[ch := session], x)| == |Having(a, x)| + if x == session then 1 else 0
  {
    var b := a[ch := session];
    if x == session {
      assert Having(b, x) == Having(a, x) + {ch};
    } else {
      assert Having(b, x) == Having(a, x);
    }
  }

  lemma {:induction false} OneMoreLive(streams: map<nat, Stream>, sessions: map<string, nat>, ch: nat, st: Stream)
    requires WithinLimits(streams, sessions) && ch !in streams && st.chan.open && |Live(streams)| < MAX_CLIENTS
    requires st.session != "" ==> CountOf(sessions, st.session) < MAX_PER_SESSION
    ensures WithinLimits(streams[ch := st], Counts(Live(streams[ch := st])))
  {
    var a, b := Live(streams), Live(streams[ch := st]);
    assert b == a[ch := st.session] && ch !in a;
    assert b.Keys == a.Keys + {ch};
    OneMoreCounted(a, ch, st.session);
  }

  lemma {:induction false} OneMoreCounted(a: map<nat, string>, ch: nat, session: string)
    requires ch !in a && forall x | x in Counts(a) :: 1 <= Counts(a)[x] <= MAX_PER_SESSION
    requires session != "" ==> CountOf(Counts(a), session) < MAX_PER_SESSION
    ensures var c := Counts(a[ch := session]); forall x | x in c :: 1 <= c[x] <= MAX_PER_SESSION
  {
    var b := a[ch := session];
    forall x | x in Counts(b) ensures 1 <= Counts(b)[x] <= MAX_PER_SESSION {
      CountsAre(a, x);
      CountsAre(b, x);
      CountAfterAdd(a, ch, session, x);
    }
  }

  lemma {:induction false} NewStreamFollows(s: State, last: string, session: string)
    requires RingIsTail(s.ring, s.log)
    ensures FollowsLog(s.log, NewStream(s, last, session).chan, CHANNEL_SIZE)
  {
    assert Replay(s, last) + [] == Replay(s, last);
  }

  lemma {:induction false} BroadcastKeepsInv(s: State, name: string, data: string)
    requires Inv(s)
    ensures Inv(AfterBroadcast(s, name, data))
  {
    var e := Event(EventId(s.nonce, |s.log| + 1), name, data);
    hide *;
    NumberedLonger(s.nonce, s.log, e);
    TrimIsTail(s.ring, s.log, e);
    OffersWithinLimits(s.streams, s.sessions, e);
    OffersFollow(s.log, s.streams, e);
  }

  lemma NumberedLonger(nonce: string, log: seq<Event>, e: Event)
    requires NumberedLog(nonce, log) && e.id == EventId(nonce, |log| + 1)
    ensures NumberedLog(nonce, log + [e])
  {
    hide EventId;
  }

  lemma OffersWithinLimits(streams: map<nat, Stream>, sessions: map<string, nat>, e: Event)
    requires WithinLimits(streams, sessions)
    ensures WithinLimits(OfferAll(streams, e), Counts(Live(OfferAll(streams, e))))
  {
    hide WithinLimits, Counts, Live;
    FewerLive(streams, sessions, OfferAll(streams, e));
  }

  lemma {:induction false} OffersFollow(log: seq<Event>, streams: map<nat, Stream>, e: Event)
    requires StreamsFollowLog(log, streams)
    ensures StreamsFollowLog(log + [e], OfferAll(streams, e))
  {
    hide FollowsLog, Offered;
    forall c | c in streams ensures FollowsLog(log + [e], OfferAll(streams, e)[c].chan, CHANNEL_SIZE) {
      OfferedFollows(log, streams[c].chan, CHANNEL_SIZE, e);
    }
  }

  lemma {:induction false} SubscribeKeepsInv(s: State, ch: nat, last: string, session: string)
    requires Inv(s)
    ensures Inv(AfterSubscribe(s, ch, last, session))
  {
    if ch !in s.streams && !Refused(s, session) {
      NewStreamFollows(s, last, session);
      OneMoreLive(s.streams, s.sessions, ch, NewStream(s, last, session));
      hide RingIsTail, WithinLimits, FollowsLog, NewStream, Refused, NumberedLog;
    }
  }

  lemma {:induction false} DoneKeepsInv(s: State, ch: nat)
    requires Inv(s)
    ensures Inv(AfterDone(s, ch))
  {
    if ch in s.streams && s.streams[ch].chan.open {
      FewerLive(s.streams, s.sessions, With(s.streams, ch, Shut(s.streams[ch].chan)));
      ShutFollows(s.log, s.streams[ch].chan, CHANNEL_SIZE);
      hide RingIsTail, WithinLimits, FollowsLog, NumberedLog;
    }
  }

  lemma {:induction false} ReceiveKeepsInv(s: State, ch: nat)
    requires Inv(s)
    ensures Inv(AfterReceive(s, ch))
  {
    if ch in s.streams && s.streams[ch].chan.buffer != [] {
      TakenFollows(s.log, s.streams[ch].chan, CHANNEL_SIZE);
      assert Live(With(s.streams, ch, Taken(s.streams[ch].chan))) == Live(s.streams);
      hide RingIsTail, FollowsLog, NumberedLog, Live, Counts, Taken;
    }
  }

  /** Every step keeps the invariant. */
  lemma StepKeepsInv(s: State, a: Action)
    requires Inv(s)
    ensures Inv(Next(s, a))
  {
    hide Inv, AfterBroadcast, AfterSubscribe, AfterDone, AfterReceive;
    match a
    case Broadcast(name, data) => BroadcastKeepsInv(s, name, data);
    case Subscribe(ch, last, session) => SubscribeKeepsInv(s, ch, last, session);
    case Done(ch) => DoneKeepsInv(s, ch);
    case Receive(ch) => ReceiveKeepsInv(s, ch);
  }

  /** Every reachable state: the ring is the log's tail, streams follow the log, counters are exact and bounded. */
  lemma {:induction false} EveryRun(nonce: string, actions: seq<Action>)
    ensures Inv(Run(Init(nonce), actions)) && Run(Init(nonce), actions).nonce == nonce
  {
    var start := Init(nonce);
    assert Live(start.streams) == map[] && Counts(map[]) == map[];
    assert Inv(start);
    hide Inv, Next;
    RunKeepsInv(start, actions);
    NonceStays(start, actions);
  }

  lemma {:induction false} RunKeepsInv(s: State, actions: seq<Action>)
    requires Inv(s)
    ensures Inv(Run(s, actions))
  {
    hide Inv, Next;
    if actions != [] {
      RunKeepsInv(s, actions[..|actions| - 1]);
      StepKeepsInv(Run(s, actions[..|actions| - 1]), actions[|actions| - 1]);
    }
  }

  lemma {:induction false} NonceStays(s: State, actions: seq<Action>)
    ensures Run(s, actions).nonce == s.nonce
  {
    if actions != [] { NonceStays(s, actions[..|actions| - 1]); }
  }

  // ---------------------------------------------------------------- resuming a stream

  /** `last` names the event at log position p, still in the ring. */
  ghost predicate Retained(s: State, p: int, last: string) {
    0 <= p < |s.log| && |s.log| - p <= REPLAY_SIZE && s.log[p].id == last
  }

  lemma {:induction false} RetainedReplays(s: State, p: int, last: string)
    requires Inv(s) && Retained(s, p, last)
    ensures !Reset(s, last) && Replay(s, last) == s.log[p + 1..]
  {
    hide StreamsFollowLog, WithinLimits, EventId;
    var base := |s.log| - |s.ring|;
    EventIdInjective(s.nonce, p + 1, p + 1);
    assert s.ring[p - base] == s.log[base..][p - base] == s.log[p];
    var k := After(s.ring, last, 0);
    assert s.ring[k - 1] == s.log[base + k - 1];
    EventIdInjective(s.nonce, base + k, p + 1);
  }

  /** A reset is sent exactly when Last-Event-ID names no retained event. */
  lemma {:induction false} ResetExactly(s: State, last: string)
    requires Inv(s)
    ensures Reset(s, last) <==> !exists p :: Retained(s, p, last)
  {
    hide StreamsFollowLog, WithinLimits;
    if p :| Retained(s, p, last) { RetainedReplays(s, p, last); }
    if !Reset(s, last) {
      var k, base := After(s.ring, last, 0), |s.log| - |s.ring|;
      assert s.ring[k - 1] == s.log[base..][k - 1] == s.log[base + k - 1];
      assert Retained(s, base + k - 1, last);
    }
  }

  /** A stream's start never changes, the log only grows, and a closed stream stays closed. */
  ghost predicate Continues(s: State, t: State, ch: nat) {
    ch in s.streams && ch in t.streams && t.streams[ch].chan.from == s.streams[ch].chan.from && s.log <= t.log &&
    (t.streams[ch].chan.open ==> s.streams[ch].chan.open)
  }

  lemma {:induction false} StepContinues(s: State, a: Action, ch: nat)
    requires ch in s.streams
    ensures Continues(s, Next(s, a), ch)
  {
    hide Counts, Live, Trim, EventId, Refused, NewStream;
  }

  lemma {:induction false} RunContinues(s: State, actions: seq<Action>, ch: nat)
    requires ch in s.streams
    ensures Continues(s, Run(s, actions), ch)
  {
    hide Next;
    if actions != [] {
      RunContinues(s, actions[..|actions| - 1], ch);
      StepContinues(Run(s, actions[..|actions| - 1]), actions[|actions| - 1], ch);
    }
  }

  /** From a stream's first state to any later one, it follows the log from where it started. */
  lemma {:induction false} StreamIsExact(s: State, ch: nat, later: seq<Action>)
    requires Inv(s) && ch in s.streams
    ensures var t := Run(s, later);
            s.log <= t.log && ch in t.streams && t.streams[ch].chan.from == s.streams[ch].chan.from &&
            FollowsLog(t.log, t.streams[ch].chan, CHANNEL_SIZE)
  {
    RunContinues(s, later, ch);
    RunKeepsInv(s, later);
    hide Run, FollowsLog;
  }

  /**
    Resuming after a retained event: whatever happens later, what the client has been given, with
    what its channel holds, is exactly the broadcasts after that event, none missing and none twice,
    up to now while the stream is open and up to some point once it is closed.
   */
  lemma {:induction false} ResumeIsExact(s: State, p: nat, ch: nat, last: string, session: string, later: seq<Action>)
    requires Inv(s) && ch !in s.streams && !Refused(s, session) && Retained(s, p, last)
    ensures !Reset(s, last)
    ensures var t := Run(Next(s, Subscribe(ch, last, session)), later);
            ch in t.streams && p < |t.log| && t.log[p].id == last &&
            var st := t.streams[ch].chan;
            st.taken + st.buffer <= t.log[p + 1..] && (st.open ==> st.taken + st.buffer == t.log[p + 1..])
  {
    RetainedReplays(s, p, last);
    var s1 := Next(s, Subscribe(ch, last, session));
    assert s1.streams[ch].chan.from == p + 1 && s1.log == s.log;
    StepKeepsInv(s, Subscribe(ch, last, session));
    hide Inv, Next, Run;
    StreamIsExact(s1, ch, later);
  }

  /** Any other Last-Event-ID gets a reset, and then exactly the broadcasts after subscribing. */
  lemma {:induction false} ResetStartsNow(s: State, ch: nat, last: string, session: string, later: seq<Action>)
    requires Inv(s) && ch !in s.streams && !Refused(s, session) && Reset(s, last)
    ensures var t := Run(Next(s, Subscribe(ch, last, session)), later);
            ch in t.streams && |s.log| <= |t.log| &&
            var st := t.streams[ch].chan;
            st.taken + st.buffer <= t.log[|s.log|..] && (st.open ==> st.taken + st.buffer == t.log[|s.log|..])
  {
    var s1 := Next(s, Subscribe(ch, last, session));
    assert s1.streams[ch].chan.from == |s.log| && s1.log == s.log;
    StepKeepsInv(s, Subscribe(ch, last, session));
    hide Inv, Next, Run;
    StreamIsExact(s1, ch, later);
  }

  // ---------------------------------------------------------------- the code

  lemma {:induction false} CountAfterRemove(a: map<nat, string>, ch: nat, x: string)
    requires ch in a && x != ""
    ensures |Having(a, x)| == |Having(a - {ch}, x)| + if x == a[ch] then 1 else 0
  {
    if x == a[ch] {
      assert Having(a, x) == Having(a - {ch}, x) + {ch};
    } else {
      assert Having(a, x) == Having(a - {ch}, x);
    }
  }

  /** Decrementing one session's counter, and deleting it at zero, keeps the counters exact. */
  lemma {:induction false} CountsAfterRemove(a: map<nat, string>, ch: nat)
    requires ch in a
    ensures a[ch] == "" ==> Counts(a - {ch}) == Counts(a)
    ensures a[ch] != "" ==>
              CountOf(Counts(a), a[ch]) >= 1 &&
              Counts(a - {ch}) ==
              if Counts(a)[a[ch]] == 1 then Counts(a) - {a[ch]} else Counts(a)[a[ch] := Counts(a)[a[ch]] - 1]
  {
    var x := a[ch];
    var expected := if x == "" then Counts(a)
                    else if CountOf(Counts(a), x) <= 1 then Counts(a) - {x}
                    else Counts(a)[x := (CountOf(Counts(a), x) - 1) as nat];
    forall y | y != ""
      ensures y in expected <==> Having(a - {ch}, y) != {}
      ensures y in expected ==> expected[y] == |Having(a - {ch}, y)|
    {
      CountsAre(a, y);
      CountAfterRemove(a, ch, y);
    }
    if x != "" { CountsAre(a, x); CountAfterRemove(a, ch, x); }
  }

  lemma {:induction false} CountsAfterAdd(a: map<nat, string>, ch: nat, x: string)
    requires ch !in a
    ensures Counts(a[ch := x]) == if x == "" then Counts(a) else Counts(a)[x := CountOf(Counts(a), x) + 1]
  {
    var expected := if x == "" then Counts(a) else Counts(a)[x := CountOf(Counts(a), x) + 1];
    forall y | y != ""
      ensures y in expected <==> Having(a[ch := x], y) != {}
      ensures y in expected ==> expected[y] == |Having(a[ch := x], y)|
    {
      CountsAre(a, y);
      CountAfterAdd(a, ch, x, y);
    }
  }

  class Hub {
    const nonce: string
    var next: nat
    var ring: seq<Event>
    /** Live channels, each with the session that owns it. */
    var clients: map<nat, string>
    var sessions: map<string, nat>
    /** What each channel holds. */
    var buffers: map<nat, seq<Event>>
    ghost var model: State

    ghost predicate Valid()
      reads this
    {
      Inv(model) && model.nonce == nonce && next == |model.log| && ring == model.ring &&
      clients == Live(model.streams) && sessions == model.sessions && buffers == Buffers(model.streams)
    }

    constructor (nonce: string)
      ensures Valid() && model == Init(nonce)
    {
      this.nonce := nonce;
      next, ring, clients, sessions, buffers := 0, [], map[], map[], map[];
      model := Init(nonce);
      new;
      EveryRun(nonce, []);
    }

    /** sseHub.removeClient: gives back every slot the stream holds. */
    method RemoveClient(ch: nat)
      requires sessions == Counts(clients)
      modifies this`clients, this`sessions
      ensures clients == old(clients) - {ch} && sessions == Counts(clients)
    {
      if ch !in clients { assert clients - {ch} == clients; return; }
      CountsAfterRemove(clients, ch);
      var sessionID := clients[ch];
      clients := clients - {ch};
      if sessionID != "" {
        sessions := sessions[sessionID := sessions[sessionID] - 1];
        if sessions[sessionID] <= 0 { sessions := sessions - {sessionID}; }
      }
    }

    method BroadcastEvent(name: string, data: string)
      requires Valid()
      modifies this
      ensures Valid() && model == Next(old(model), Broadcast(name, data))
    {
      hide Inv, Counts, Live, Buffers, OfferAll, Next, EventId;
      SessionsCounted(model);
      BroadcastEffect(model, name, data);
      next := next + 1;
      var e := Event(EventId(nonce, next), name, data);
      ring := ring + [e];
      if |ring| > REPLAY_SIZE { ring := ring[|ring| - REPLAY_SIZE..]; }
      OfferToClients(e, model.streams);
      model := Next(model, Broadcast(name, data));
    }

    /** The loop over clients: a full channel is dropped rather than waited for. */
    method OfferToClients(e: Event, ghost was: map<nat, Stream>)
      requires clients == Live(was) && sessions == Counts(clients) && buffers == Buffers(was)
      modifies this`clients, this`sessions, this`buffers
      ensures clients == Live(OfferAll(was, e)) && sessions == Counts(clients) && buffers == Buffers(OfferAll(was, e))
    {
      hide Counts, Live, Buffers, OfferAll, Halfway;
      LiveHalfway(was, e);
      var todo := clients.Keys;
      while todo != {}
        invariant todo <= clients.Keys && sessions == Counts(clients)
        invariant Halfway(was, OfferAll(was, e), todo, clients, buffers)
        decreases |todo|
      {
        var ch :| ch in todo;
        HalfwayStep(was, e, todo, clients, buffers, ch);
        if |buffers[ch]| < CHANNEL_SIZE {
          buffers := buffers[ch := buffers[ch] + [e]];
        } else {
          RemoveClient(ch);
        }
        todo := todo - {ch};
      }
      HalfwayEnd(was, OfferAll(was, e), clients, buffers);
    }

    method SubscribeClient(ch: nat, last: string, session: string)
      returns (replay: seq<Event>, reset: bool, accepted: bool)
      requires Valid() && ch !in model.streams
      modifies this
      ensures Valid() && model == Next(old(model), Subscribe(ch, last, session))
      ensures accepted <==> !Refused(old(model), session)
      ensures accepted ==> reset == Reset(old(model), last) && replay == Replay(old(model), last)
      ensures accepted ==> ch in model.streams && model.streams[ch].chan.open && model.streams[ch].chan.taken == replay
    {
      hide Inv, Counts, Live, Buffers, NewStream, Next, After;
      SubscribeRefused(model, ch, last, session);
      if |clients| >= MAX_CLIENTS || (session != "" && CountOf(sessions, session) >= MAX_PER_SESSION) {
        return [], false, false;
      }
      reset := last == "";
      var start := |ring|;
      if last != "" {
        start := FindAfter(last);
        if start < 0 {
          reset := true;
          start := |ring|;
        }
      }
      replay := ring[start..];
      SubscribeEffect(model, ch, last, session);
      clients := clients[ch := session];
      if session != "" { sessions := sessions[session := CountOf(sessions, session) + 1]; }
      buffers := buffers[ch := []];
      model := Next(model, Subscribe(ch, last, session));
      return replay, reset, true;
    }

    /** The search of the ring for the last event the client saw. */
    method FindAfter(last: string) returns (start: int)
      ensures start == After(ring, last, 0)
    {
      var i := 0;
      while i < |ring|
        invariant 0 <= i <= |ring| && After(ring, last, 0) == After(ring, last, i)
      {
        if ring[i].id == last { return i + 1; }
        i := i + 1;
      }
      return -1;
    }

    /** The closure subscribe returns: the stream's handler is finished. */
    method DoneClient(ch: nat)
      requires Valid()
      modifies this
      ensures Valid() && model == Next(old(model), Done(ch))
    {
      hide Inv, Counts, Live, Buffers, Next;
      SessionsCounted(model);
      DoneEffect(model, ch);
      RemoveClient(ch);
      model := Next(model, Done(ch));
    }

    /** The stream's handler takes the next event from its channel. */
    method TakeEvent(ch: nat) returns (taken: seq<Event>)
      requires Valid()
      modifies this`buffers, this`model
      ensures Valid() && model == Next(old(model), Receive(ch))
      ensures taken == if ch in old(buffers) && old(buffers)[ch] != [] then old(buffers)[ch][..1] else []
    {
      hide Inv, Counts, Live, Buffers, Next;
      ReceiveEffect(model, ch);
      taken := [];
      if ch in buffers && buffers[ch] != [] {
        taken := buffers[ch][..1];
        buffers := buffers[ch := buffers[ch][1..]];
      }
      model := Next(model, Receive(ch));
    }
  }

  lemma ReceiveIs(s: State, ch: nat)
    ensures var t := Next(s, Receive(ch));
            t == State(s.nonce, s.log, s.ring, t.streams, s.sessions) && Live(t.streams) == Live(s.streams) &&
            Buffers(t.streams) ==
            if ch in Buffers(s.streams) && Buffers(s.streams)[ch] != []
            then Buffers(s.streams)[ch := Buffers(s.streams)[ch][1..]] else Buffers(s.streams)
  {
  }

  lemma {:induction false} ReceiveEffect(s: State, ch: nat)
    requires Inv(s)
    ensures var t := Next(s, Receive(ch));
            Inv(t) && t == State(s.nonce, s.log, s.ring, t.streams, s.sessions) && Live(t.streams) == Live(s.streams) &&
            Buffers(t.streams) ==
            if ch in Buffers(s.streams) && Buffers(s.streams)[ch] != []
            then Buffers(s.streams)[ch := Buffers(s.streams)[ch][1..]] else Buffers(s.streams)
  {
    hide *;
    StepKeepsInv(s, Receive(ch));
    ReceiveIs(s, ch);
  }

  lemma SessionsCounted(s: State)
    requires Inv(s)
    ensures s.sessions == Counts(Live(s.streams))
  {
  }

  lemma LiveAfterOpen(streams: map<nat, Stream>, ch: nat, st: Stream)
    requires st.chan.open
    ensures Live(streams[ch := st]) == Live(streams)[ch := st.session]
    ensures Buffers(streams[ch := st]) == Buffers(streams)[ch := st.chan.buffer]
  {
  }

  lemma LiveAfterClose(streams: map<nat, Stream>, ch: nat)
    requires ch in streams
    ensures Live(With(streams, ch, Shut(streams[ch].chan))) == Live(streams) - {ch}
    ensures Buffers(With(streams, ch, Shut(streams[ch].chan))) == Buffers(streams)
  {
  }

  lemma SubscribeIs(s: State, ch: nat, last: string, session: string)
    requires ch !in s.streams && !Refused(s, session)
    ensures var st := NewStream(s, last, session);
            var streams := s.streams[ch := st];
            Next(s, Subscribe(ch, last, session)) == State(s.nonce, s.log, s.ring, streams, Counts(Live(streams))) &&
            st.chan.buffer == [] && st.chan.open && st.session == session && st.chan.taken == Replay(s, last)
  {
  }

  /** What an accepted subscription changes. */
  lemma {:induction false} SubscribeEffect(s: State, ch: nat, last: string, session: string)
    requires Inv(s) && ch !in s.streams && !Refused(s, session)
    ensures var st := NewStream(s, last, session);
            var t := Next(s, Subscribe(ch, last, session));
            Inv(t) && t == State(s.nonce, s.log, s.ring, s.streams[ch := st], t.sessions) &&
            st.chan.buffer == [] && st.chan.open && st.chan.taken == Replay(s, last) &&
            Live(t.streams) == Live(s.streams)[ch := session] && Buffers(t.streams) == Buffers(s.streams)[ch := []] &&
            t.sessions == if session == "" then s.sessions else s.sessions[session := CountOf(s.sessions, session) + 1]
  {
    hide *;
    var st := NewStream(s, last, session);
    StepKeepsInv(s, Subscribe(ch, last, session));
    SessionsCounted(s);
    SubscribeIs(s, ch, last, session);
    LiveAfterOpen(s.streams, ch, st);
    NotLive(s.streams, ch);
    CountsAfterAdd(Live(s.streams), ch, session);
  }

  lemma NotLive(streams: map<nat, Stream>, ch: nat)
    ensures ch in Live(streams) <==> ch in streams && streams[ch].chan.open
  {
  }

  lemma DoneIs(s: State, ch: nat)
    ensures var t := Next(s, Done(ch));
            if ch in s.streams && s.streams[ch].chan.open
            then t == State(s.nonce, s.log, s.ring, With(s.streams, ch, Shut(s.streams[ch].chan)), t.sessions)
            else t == s
  {
  }

  lemma {:induction false} DoneEffect(s: State, ch: nat)
    requires Inv(s)
    ensures var t := Next(s, Done(ch));
            Inv(t) && t == State(s.nonce, s.log, s.ring, t.streams, t.sessions) &&
            Buffers(t.streams) == Buffers(s.streams) &&
            Live(t.streams) == Live(s.streams) - {ch} && t.sessions == Counts(Live(t.streams))
  {
    hide *;
    var t := Next(s, Done(ch));
    StepKeepsInv(s, Done(ch));
    SessionsCounted(t);
    DoneIs(s, ch);
    NotLive(s.streams, ch);
    if ch in s.streams && s.streams[ch].chan.open {
      LiveAfterClose(s.streams, ch);
    } else {
      assert Live(s.streams) - {ch} == Live(s.streams);
    }
  }

  lemma {:induction false} BroadcastEffect(s: State, name: string, data: string)
    requires Inv(s)
    ensures var e := Event(EventId(s.nonce, |s.log| + 1), name, data);
            var t := Next(s, Broadcast(name, data));
            Inv(t) && t == State(s.nonce, s.log + [e], Trim(s.ring + [e]), OfferAll(s.streams, e), t.sessions) &&
            t.sessions == Counts(Live(t.streams))
  {
    hide Inv, OfferAll, Counts, Live, Trim, EventId;
    StepKeepsInv(s, Broadcast(name, data));
  }

  /** Midway through the client loop: the channels outside `todo` have been offered the event. */
  ghost predicate Halfway(
      was: map<nat, Stream>, will: map<nat, Stream>, todo: set<nat>,
      clients: map<nat, string>, buffers: map<nat, seq<Event>>)
  {
    will.Keys == was.Keys && buffers.Keys == was.Keys &&
    (forall c | c in was :: var st := if c in todo then was[c] else will[c];
                            buffers[c] == st.chan.buffer && (c in clients <==> st.chan.open) &&
                            st.session == was[c].session) &&
    (forall c | c in clients :: c in was && clients[c] == was[c].session)
  }

  lemma LiveHalfway(was: map<nat, Stream>, e: Event)
    ensures Halfway(was, OfferAll(was, e), Live(was).Keys, Live(was), Buffers(was))
  {
  }

  lemma SubscribeRefused(s: State, ch: nat, last: string, session: string)
    ensures Refused(s, session) ==> Next(s, Subscribe(ch, last, session)) == s
  {
  }

  lemma {:induction false} HalfwayStep(
      was: map<nat, Stream>, e: Event, todo: set<nat>,
      clients: map<nat, string>, buffers: map<nat, seq<Event>>, ch: nat)
    requires Halfway(was, OfferAll(was, e), todo, clients, buffers) && ch in todo && ch in clients
    ensures ch in buffers
    ensures if |buffers[ch]| < CHANNEL_SIZE
            then Halfway(was, OfferAll(was, e), todo - {ch}, clients, buffers[ch := buffers[ch] + [e]])
            else Halfway(was, OfferAll(was, e), todo - {ch}, clients - {ch}, buffers)
  {
    assert was[ch].chan.open && buffers[ch] == was[ch].chan.buffer;
  }

  lemma HalfwayEnd(was: map<nat, Stream>, will: map<nat, Stream>, clients: map<nat, string>,
                   buffers: map<nat, seq<Event>>)
    requires Halfway(was, will, {}, clients, buffers)
    ensures clients == Live(will) && buffers == Buffers(will)
  {
  }
}
