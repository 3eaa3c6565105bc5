/**
  Credential rotation (internal/auth/service.go): logins and sudo grants under the shared side of
  the configuration lock, reconfiguration under the exclusive side, restarts and crashes between
  any two database statements. Password verification is a parameter.
 */
module Rotation {
  import opened Options

  /** The configured administrator. */
  datatype Creds = Creds(username: string, hash: string)

  /** What a session or a sudo window was granted on. */
  datatype Grant = Grant(on: Creds, password: string)

  type Verify = (string, string) -> bool

  // ---------------------------------------------------------------- the machine

  /** A call that holds the shared lock, with the credentials it read on entry. */
  datatype Holder =
    | Login(captured: Creds, username: string, password: string)
    | Sudo(captured: Creds, session: string, password: string)

  datatype Memory = Memory(creds: Creds, sudo: map<string, Grant>)

  /** The exclusive lock: free, or held between the users update and the revocation. */
  datatype Writer = Free | Rotating(changed: bool)

  /** A start between the users upsert and the revocation. */
  datatype Starting = Starting(creds: Creds, changed: bool)

  /** The two tables, then the process: the service's memory, the calls in flight, the lock, a start under way. */
  datatype System = System(
    user: Option<Creds>, sessions: map<string, Grant>,
    memory: Option<Memory>, holders: map<nat, Holder>, writer: Writer, starting: Option<Starting>)

  datatype Action =
    | BeginLogin(call: nat, username: string, password: string)
    | BeginSudo(call: nat, session: string, password: string)
    | Finish(call: nat, id: string, issued: bool)
    | Update(creds: Creds, ok: bool)
    | Revoke(ok: bool)
    | Upsert(creds: Creds, ok: bool)
    | Serve(ok: bool)
    | DropSession(id: string)
    | DropSudo(id: string)
    | Crash

  const EMPTY := System(None, map[], None, map[], Free, None)

  /** credentialsDiffer: no stored administrator counts as no change. */
  predicate Differ(user: Option<Creds>, creds: Creds) { user.Some? && user.value != creds }

  predicate Accepted(verify: Verify, h: Holder) {
    verify(h.captured.hash, h.password) && (h.Login? ==> h.username == h.captured.username)
  }

  function AfterBegin(s: System, call: nat, h: Creds -> Holder): System {
    if s.memory.Some? && s.writer == Free && call !in s.holders
    then s.(holders := s.holders[call := h(s.memory.value.creds)])
    else s
  }

  function AfterFinish(verify: Verify, s: System, call: nat, id: string, issued: bool): System {
    if call !in s.holders || s.memory.None? then s
    else
      var h := s.holders[call];
      var left := s.(holders := s.holders - {call});
      if !issued || !Accepted(verify, h) then left
      else if h.Login? then left.(sessions := s.sessions[id := Grant(h.captured, h.password)])
      else
        var m := s.memory.value;
        left.(memory := Some(m.(sudo := m.sudo[h.session := Grant(h.captured, h.password)])))
  }

  function AfterUpdate(s: System, creds: Creds, ok: bool): System {
    if s.memory.None? || s.writer != Free || s.holders != map[] || !ok then s
    else
      s.(user := Some(creds), memory := Some(s.memory.value.(creds := creds)),
         writer := Rotating(Differ(s.user, creds)))
  }

  function AfterRevoke(s: System, ok: bool): System {
    if s.memory.None? || !s.writer.Rotating? then s
    else if s.writer.changed && ok
    then s.(sessions := map[], memory := Some(s.memory.value.(sudo := map[])), writer := Free)
    else s.(writer := Free)
  }

  function AfterUpsert(s: System, creds: Creds, ok: bool): System {
    if s.memory.Some? || s.starting.Some? || !ok then s
    else s.(user := Some(creds), starting := Some(Starting(creds, Differ(s.user, creds))))
  }

  function AfterServe(s: System, ok: bool): System {
    if s.starting.None? then s
    else if s.starting.value.changed && !ok then s.(starting := None)
    else
      s.(sessions := if s.starting.value.changed then map[] else s.sessions,
         memory := Some(Memory(s.starting.value.creds, map[])), starting := None)
  }

  function AfterDropSudo(s: System, id: string): System {
    if s.memory.None? then s else s.(memory := Some(s.memory.value.(sudo := s.memory.value.sudo - {id})))
  }

  function Next(verify: Verify, s: System, a: Action): System {
    match a
    case BeginLogin(call, username, password) => AfterBegin(s, call, c => Login(c, username, password))
    case BeginSudo(call, session, password) => AfterBegin(s, call, c => Sudo(c, session, password))
    case Finish(call, id, issued) => AfterFinish(verify, s, call, id, issued)
    case Update(creds, ok) => AfterUpdate(s, creds, ok)
    case Revoke(ok) => AfterRevoke(s, ok)
    case Upsert(creds, ok) => AfterUpsert(s, creds, ok)
    case Serve(ok) => AfterServe(s, ok)
    case DropSession(id) => s.(sessions := s.sessions - {id})
    case DropSudo(id) => AfterDropSudo(s, id)
    case Crash => s.(memory := None, holders := map[], writer := Free, starting := None)
  }

  function Run(verify: Verify, actions: seq<Action>): System {
    if actions == [] then EMPTY
    else Next(verify, Run(verify, actions[..|actions| - 1]), actions[|actions| - 1])
  }

  /** A revocation that is due does not happen: its statement fails, or the process dies before it. */
  predicate LosesRevocation(s: System, a: Action) {
    var due := s.writer == Rotating(true) || (s.starting.Some? && s.starting.value.changed);
    due && (a == Crash || a == Revoke(false) || a == Serve(false))
  }

  /** No due revocation is lost from the n-th step on. */
  predicate CleanFrom(verify: Verify, actions: seq<Action>, n: nat) {
    |actions| <= n ||
    var k := |actions| - 1;
    CleanFrom(verify, actions[..k], n) && !LosesRevocation(Run(verify, actions[..k]), actions[k])
  }

  predicate Clean(verify: Verify, actions: seq<Action>) { CleanFrom(verify, actions, 0) }

  // ---------------------------------------------------------------- what every clean run keeps

  ghost predicate AllBy(grants: map<string, Grant>, creds: Creds) {
    forall id | id in grants :: grants[id].on == creds
  }

  ghost predicate AllVerified(verify: Verify, grants: map<string, Grant>) {
    forall id | id in grants :: verify(grants[id].on.hash, grants[id].password)
  }

  /**
    While no rotation is under way, every session and sudo window present was granted by verifying
    against the credentials configured now.
   */
  ghost predicate Current(verify: Verify, s: System) {
    s.memory.Some? && s.writer == Free ==>
      AllBy(s.sessions, s.memory.value.creds) && AllVerified(verify, s.sessions) &&
      AllBy(s.memory.value.sudo, s.memory.value.creds) && AllVerified(verify, s.memory.value.sudo)
  }

  /** Calls in flight read the credentials that are still configured. */
  ghost predicate LockInv(s: System) {
    (s.memory.Some? ==> s.user == Some(s.memory.value.creds) && s.starting.None?) &&
    (s.starting.Some? ==> s.user == Some(s.starting.value.creds)) &&
    (s.memory.None? ==> s.holders == map[] && s.writer == Free) &&
    (s.writer.Rotating? ==> s.holders == map[]) &&
    forall call | call in s.holders :: s.user == Some(s.holders[call].captured)
  }

  ghost predicate GrantInv(verify: Verify, s: System) {
    AllVerified(verify, s.sessions) && (s.memory.Some? ==> AllVerified(verify, s.memory.value.sudo)) &&
    (s.user.None? ==> s.sessions == map[]) &&
    (s.user.Some? && s.writer != Rotating(true) && (s.starting.Some? ==> !s.starting.value.changed) ==>
       AllBy(s.sessions, s.user.value) && (s.memory.Some? ==> AllBy(s.memory.value.sudo, s.user.value)))
  }

  lemma StepKeepsLock(verify: Verify, s: System, a: Action)
    requires LockInv(s)
    ensures LockInv(Next(verify, s, a))
  {
  }

  lemma FinishKeepsGrants(verify: Verify, s: System, call: nat, id: string, issued: bool)
    requires LockInv(s) && GrantInv(verify, s)
    ensures GrantInv(verify, AfterFinish(verify, s, call, id, issued))
  {
  }

  lemma StepKeepsGrants(verify: Verify, s: System, a: Action)
    requires LockInv(s) && GrantInv(verify, s) && !LosesRevocation(s, a)
    ensures GrantInv(verify, Next(verify, s, a))
  {
    hide AfterFinish;
    if a.Finish? { FinishKeepsGrants(verify, s, a.call, a.id, a.issued); }
  }

  lemma {:induction false} RunKeepsLock(verify: Verify, actions: seq<Action>)
    ensures LockInv(Run(verify, actions))
  {
    hide Next, LockInv;
    if actions == [] {
      assert LockInv(EMPTY) by { EmptyInv(verify); }
    } else {
      var n := |actions| - 1;
      RunKeepsLock(verify, actions[..n]);
      StepKeepsLock(verify, Run(verify, actions[..n]), actions[n]);
    }
  }

  lemma {:induction false} RunKeepsGrants(verify: Verify, actions: seq<Action>, n: nat)
    requires n <= |actions| && GrantInv(verify, Run(verify, actions[..n])) && CleanFrom(verify, actions, n)
    ensures GrantInv(verify, Run(verify, actions))
  {
    hide Next, LockInv, GrantInv, LosesRevocation;
    if |actions| == n {
      assert actions[..n] == actions;
    } else {
      var k := |actions| - 1;
      assert actions[..k][..n] == actions[..n];
      RunKeepsGrants(verify, actions[..k], n);
      RunKeepsLock(verify, actions[..k]);
      StepKeepsGrants(verify, Run(verify, actions[..k]), actions[k]);
    }
  }

  lemma RunKeepsInv(verify: Verify, actions: seq<Action>)
    requires Clean(verify, actions)
    ensures LockInv(Run(verify, actions)) && GrantInv(verify, Run(verify, actions))
  {
    hide Next, LockInv, GrantInv, LosesRevocation;
    RunKeepsLock(verify, actions);
    assert GrantInv(verify, EMPTY) by { EmptyInv(verify); }
    RunKeepsGrants(verify, actions, 0);
  }

  lemma EmptyInv(verify: Verify)
    ensures LockInv(EMPTY) && GrantInv(verify, EMPTY)
  {
  }

  /**
    In every interleaving of logins, sudo grants, reconfigurations, crashes and restarts in which no
    due revocation is lost, whatever is present outside a rotation was granted on the credentials
    configured now. Between a rotation's update and its deletion the old sessions are still stored.
   */
  lemma RotationIsSound(verify: Verify, actions: seq<Action>)
    requires Clean(verify, actions)
    ensures Current(verify, Run(verify, actions))
  {
    hide Run, Clean;
    RunKeepsInv(verify, actions);
  }

  /** The revocation takes effect: a reconfiguration's or a start's deletion of the sessions. */
  predicate Deletes(s: System, a: Action) {
    (a == Revoke(true) && s.memory.Some? && s.writer == Rotating(true)) ||
    (a == Serve(true) && s.starting.Some? && s.starting.value.changed)
  }

  /**
    A deletion that takes effect makes good whatever was lost before it: from then on, with no due
    revocation lost since, what is present was again granted on the credentials configured now.
   */
  lemma DeletionRestores(verify: Verify, actions: seq<Action>, n: nat)
    requires n < |actions| && Deletes(Run(verify, actions[..n]), actions[n]) && CleanFrom(verify, actions, n + 1)
    ensures Current(verify, Run(verify, actions))
  {
    hide Next, LockInv, GrantInv, Deletes, CleanFrom, Current, Run;
    RunKeepsLock(verify, actions[..n]);
    RunAt(verify, actions, n);
    DeletionClears(verify, Run(verify, actions[..n]), actions[n]);
    RunKeepsGrants(verify, actions, n + 1);
    RunKeepsLock(verify, actions);
    InvIsCurrent(verify, Run(verify, actions));
  }

  lemma DeletionClears(verify: Verify, s: System, a: Action)
    requires LockInv(s) && Deletes(s, a)
    ensures GrantInv(verify, Next(verify, s, a))
  {
  }

  lemma InvIsCurrent(verify: Verify, s: System)
    requires LockInv(s) && GrantInv(verify, s)
    ensures Current(verify, s)
  {
  }

  lemma RunAt(verify: Verify, actions: seq<Action>, k: nat)
    requires k < |actions|
    ensures Run(verify, actions[..k + 1]) == Next(verify, Run(verify, actions[..k]), actions[k])
    ensures Clean(verify, actions[..k + 1]) <==>
            Clean(verify, actions[..k]) && !LosesRevocation(Run(verify, actions[..k]), actions[k])
  {
    hide Next, LosesRevocation;
    assert actions[..k + 1][..k] == actions[..k];
  }

  // ---------------------------------------------------------------- what every run keeps

  /** The credentials configured since the last deletion that took effect. */
  function Configured(verify: Verify, actions: seq<Action>): set<Creds> {
    if actions == [] then {}
    else
      var n := |actions| - 1;
      var before, after := Run(verify, actions[..n]), Run(verify, actions);
      (if Deletes(before, actions[n]) then {} else Configured(verify, actions[..n])) +
      if after.user.Some? then {after.user.value} else {}
  }

  ghost predicate Accounted(verify: Verify, grants: map<string, Grant>, configured: set<Creds>) {
    AllVerified(verify, grants) && forall id | id in grants :: grants[id].on in configured
  }

  ghost predicate HistoryInv(verify: Verify, s: System, configured: set<Creds>) {
    Accounted(verify, s.sessions, configured) &&
    (s.memory.Some? ==> Accounted(verify, s.memory.value.sudo, configured)) &&
    (s.user.Some? ==> s.user.value in configured)
  }

  lemma StepKeepsHistory(verify: Verify, s: System, a: Action, was: set<Creds>, now: set<Creds>)
    requires LockInv(s) && HistoryInv(verify, s, was)
    requires Next(verify, s, a).user.Some? ==> Next(verify, s, a).user.value in now
    requires was <= now || Deletes(s, a)
    ensures HistoryInv(verify, Next(verify, s, a), now)
  {
    if a.Finish? {
      FinishKeepsHistory(verify, s, a.call, a.id, a.issued, was, now);
    } else {
      hide AfterFinish;
    }
  }

  lemma FinishKeepsHistory(verify: Verify, s: System, call: nat, id: string, issued: bool,
                           was: set<Creds>, now: set<Creds>)
    requires LockInv(s) && HistoryInv(verify, s, was) && was <= now
    ensures HistoryInv(verify, AfterFinish(verify, s, call, id, issued), now)
  {
  }

  /**
    Lost revocations included, in every run each session and sudo window present was granted by a
    verified password, on credentials configured since the last deletion that took effect.
   */
  lemma {:induction false} EveryGrantIsAccounted(verify: Verify, actions: seq<Action>)
    ensures var s := Run(verify, actions);
            Accounted(verify, s.sessions, Configured(verify, actions)) &&
            (s.memory.Some? ==> Accounted(verify, s.memory.value.sudo, Configured(verify, actions)))
    ensures HistoryInv(verify, Run(verify, actions), Configured(verify, actions))
  {
    if actions != [] {
      hide Next, Deletes, LockInv, Accounted;
      var n := |actions| - 1;
      EveryGrantIsAccounted(verify, actions[..n]);
      RunKeepsLock(verify, actions[..n]);
      StepKeepsHistory(verify, Run(verify, actions[..n]), actions[n],
                       Configured(verify, actions[..n]), Configured(verify, actions));
    }
  }

  // ---------------------------------------------------------------- when a revocation is lost

  /**
    A reconfiguration whose revocation fails leaves the old grants unless the credentials did not
    change or there were none.
   */
  lemma FailedRevocation(verify: Verify, actions: seq<Action>, creds: Creds, ok: bool)
    requires Clean(verify, actions)
    requires var s := Run(verify, actions); s.memory.Some? && s.writer == Free && s.holders == map[]
    ensures var s := Run(verify, actions);
            var after := Next(verify, Next(verify, s, Update(creds, true)), Revoke(ok));
            Current(verify, after) <==>
            ok || !Differ(s.user, creds) || (s.sessions == map[] && s.memory.value.sudo == map[])
  {
    hide Run, Clean;
    RunKeepsInv(verify, actions);
    var s := Run(verify, actions);
  }

  /** A start on the given credentials, both its statements succeeding. */
  function Started(verify: Verify, s: System, creds: Creds): System {
    Next(verify, Next(verify, s, Upsert(creds, true)), Serve(true))
  }

  /**
    The start after a crash between a reconfiguration's two statements compares with what is stored
    by then: the old sessions stay unless it configures other credentials again.
   */
  lemma CrashedRotation(verify: Verify, actions: seq<Action>, creds: Creds, next: Creds)
    requires Clean(verify, actions)
    requires var s := Run(verify, actions); s.memory.Some? && s.writer == Free && s.holders == map[]
    ensures var s := Run(verify, actions);
            var crashed := Next(verify, Next(verify, s, Update(creds, true)), Crash);
            var after := Started(verify, crashed, next);
            after.memory.Some? &&
            (Current(verify, after) <==> next != creds || !Differ(s.user, creds) || s.sessions == map[])
  {
    hide Run, Clean;
    RunKeepsInv(verify, actions);
    var s := Run(verify, actions);
  }

  /** The same for the start after one that died between its two statements. */
  lemma CrashedStart(verify: Verify, actions: seq<Action>, creds: Creds, next: Creds)
    requires Clean(verify, actions)
    requires var s := Run(verify, actions); s.memory.None? && s.starting.None?
    ensures var s := Run(verify, actions);
            var crashed := Next(verify, Next(verify, s, Upsert(creds, true)), Crash);
            var after := Started(verify, crashed, next);
            after.memory.Some? &&
            (Current(verify, after) <==> next != creds || !Differ(s.user, creds) || s.sessions == map[])
  {
    hide Run, Clean;
    RunKeepsInv(verify, actions);
    var s := Run(verify, actions);
  }

  /** And for the start after one whose deletion failed. */
  lemma FailedStart(verify: Verify, actions: seq<Action>, creds: Creds, next: Creds)
    requires Clean(verify, actions)
    requires var s := Run(verify, actions); s.memory.None? && s.starting.None?
    ensures var s := Run(verify, actions);
            var failed := Next(verify, Next(verify, s, Upsert(creds, true)), Serve(false));
            Differ(s.user, creds) ==>
              var after := Started(verify, failed, next);
              failed.memory.None? && after.memory.Some? &&
              (Current(verify, after) <==> next != creds || s.sessions == map[])
  {
    hide Run, Clean;
    RunKeepsInv(verify, actions);
    var s := Run(verify, actions);
  }

  /** The run of a start, a login, a rotation and a deletion that fails. */
  const LOST: seq<Action> := [
    Upsert(Creds("admin", "old"), true), Serve(true), BeginLogin(0, "admin", "old"), Finish(0, "session", true),
    Update(Creds("admin", "new"), true), Revoke(false)]

  function LoggedIn(): System {
    var was := Creds("admin", "old");
    System(Some(was), map["session" := Grant(was, "old")], Some(Memory(was, map[])), map[], Free, None)
  }

  lemma LostLogin(verify: Verify)
    requires verify("old", "old")
    ensures Run(verify, LOST[..4]) == LoggedIn() && Clean(verify, LOST[..4])
  {
    var was := Creds("admin", "old");
    assert Run(verify, LOST[..0]) == EMPTY && Clean(verify, LOST[..0]);
    hide Run, Clean;
    RunAt(verify, LOST, 0);
    RunAt(verify, LOST, 1);
    assert Run(verify, LOST[..2]) == System(Some(was), map[], Some(Memory(was, map[])), map[], Free, None);
    RunAt(verify, LOST, 2);
    RunAt(verify, LOST, 3);
  }

  /**
    Whatever verifies the old password: nothing is lost before the last step,
    and after it the old session is still there.
   */
  lemma OldSessionSurvives(verify: Verify)
    requires verify("old", "old")
    ensures Clean(verify, LOST[..5]) && Run(verify, LOST).memory == Some(Memory(Creds("admin", "new"), map[])) &&
            Run(verify, LOST).sessions == map["session" := Grant(Creds("admin", "old"), "old")] &&
            !Current(verify, Run(verify, LOST))
  {
    hide Run, Clean;
    LostLogin(verify);
    RunAt(verify, LOST, 4);
    RunAt(verify, LOST, 5);
    assert LOST[..6] == LOST;
    assert "session" in Run(verify, LOST).sessions;
  }

  // ---------------------------------------------------------------- the code

  /** The users and sessions tables; a row keeps, for the proofs, what it was granted on. */
  class Store {
    var user: Option<Creds>
    var sessions: map<string, Grant>

    constructor ()
      ensures Offline() == EMPTY
    {
      user, sessions := None, map[];
    }

    /** The tables with no service running. */
    ghost function Offline(): System
      reads this
    {
      System(user, sessions, None, map[], Free, None)
    }

    /** The database part of New: one step up to the upsert, one from there to serving. */
    method Reconcile(creds: Creds, upserts: bool, revokes: bool) returns (ok: bool)
      modifies this
      ensures forall verify: Verify ::
                var s := Next(verify, Next(verify, old(Offline()), Upsert(creds, upserts)), Serve(revokes));
                user == s.user && sessions == s.sessions && (ok <==> s.memory.Some?)
      ensures ok ==> user == Some(creds)
    {
      var changed := user.Some? && user.value != creds;
      if !upserts { return false; }
      user := Some(creds);
      if changed {
        if !revokes { return false; }
        sessions := map[];
      }
      return true;
    }
  }

  class Service {
    const store: Store
    var creds: Creds
    var sudo: map<string, Grant>

    constructor (store: Store, creds: Creds)
      requires store.user == Some(creds)
      ensures this.store == store && this.creds == creds && sudo == map[]
    {
      this.store, this.creds, sudo := store, creds, map[];
    }

    /** The machine's state between two calls. */
    ghost function State(): System
      reads this, store
    {
      System(store.user, store.sessions, Some(Memory(creds, sudo)), map[], Free, None)
    }

    /** Login, whole under the shared lock: its two steps with nothing in between. */
    method Login(verify: Verify, username: string, password: string, id: string, issued: bool) returns (ok: bool)
      modifies store
      ensures State() ==
              Next(verify, Next(verify, old(State()), BeginLogin(0, username, password)), Finish(0, id, issued))
      ensures ok <==> issued && verify(creds.hash, password) && username == creds.username
    {
      var configured := creds;
      var valid := verify(configured.hash, password);
      valid := valid && username == configured.username;
      ghost var begun := Next(verify, State(), BeginLogin(0, username, password));
      assert begun.holders - {0} == map[];
      if !valid || !issued { return false; }
      store.sessions := store.sessions[id := Grant(configured, password)];
      return true;
    }

    method OpenSudo(verify: Verify, session: string, password: string, issued: bool) returns (ok: bool)
      modifies this`sudo
      ensures State() ==
              Next(verify, Next(verify, old(State()), BeginSudo(0, session, password)), Finish(0, session, issued))
      ensures ok <==> issued && verify(creds.hash, password)
    {
      var configured := creds;
      ghost var begun := Next(verify, State(), BeginSudo(0, session, password));
      assert begun.holders - {0} == map[];
      if !verify(configured.hash, password) || !issued { return false; }
      sudo := sudo[session := Grant(configured, password)];
      return true;
    }

    /** Reconfigure, whole under the exclusive lock. */
    method Reconfigure(verify: Verify, next: Creds, valid: bool, updates: bool, revokes: bool) returns (ok: bool)
      modifies this, store
      ensures State() == Next(verify, Next(verify, old(State()), Update(next, valid && updates)), Revoke(revokes))
      ensures ok <==> valid && updates && (Differ(old(store.user), next) ==> revokes)
    {
      if !valid { return false; }
      var changed := store.user.Some? && store.user.value != next;
      if !updates { return false; }
      store.user := Some(next);
      creds := next;
      if changed {
        if !revokes { return false; }
        store.sessions := map[];
        sudo := map[];
      }
      return true;
    }
  }
}
