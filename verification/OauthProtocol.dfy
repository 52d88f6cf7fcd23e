/**
 The OAuth refresh protocol as a state machine. Proxy requests, background ticks
 and operator bootstraps take the per-session lock and then run one SQL statement
 or one half of a token-endpoint exchange per step; operator revokes delete rows
 without the lock. Any number of actors may be interleaved in any way.

 Each session that a tick visits is an actor of its own, for any key and any
 threshold, which includes every listing `list_pending_refresh` can produce.
 */
module OauthProtocol {
  import opened Prelude
  import opened OauthTable

  // ---- State ---------------------------------------------------------------

  type ActorId = nat

  datatype Role = Proxy | Tick(threshold: int) | Bootstrap(refresh: string)

  datatype Outcome =
    | Token(access: Option<string>, account: Option<string>, expires: Option<int>,
            generation: nat, checkedAt: Option<int>)
    | Missing
    | AlreadyDegraded
    | Skipped
    | Conflict
    | Persisted
    | RefreshFailed
    | RolledBack

  // Where an actor stands. `s` is the row it read (or inserted) under the lock.
  datatype Stage =
    | Waiting
    | Locked
    | Refreshing(s: Session)
    | Sent(s: Session)
    | Answered(s: Session, grant: Grant)
    | Updated(s: Session, grant: Grant, at: int)
    | Failing(s: Session)
    | Leaving(out: Outcome)
    | Done(out: Outcome)
  {
    predicate Critical() {
      !Waiting? && !Done?
    }

    predicate HasSession() {
      Refreshing? || Sent? || Answered? || Updated? || Failing?
    }
  }

  datatype Actor = Actor(role: Role, key: Key, stage: Stage)

  // One refresh token value handed to the token endpoint on behalf of a session.
  datatype Send = Send(generation: nat, token: string)

  // `sessions[g]` is the key generation `g` was inserted under; `sent` is the
  // log of refresh-grant requests. Both are history variables.
  datatype World = World(
    rows: Table,
    locks: map<string, ActorId>,
    actors: map<ActorId, Actor>,
    sessions: seq<Key>,
    sent: seq<Send>)

  // The lock map's key. Distinct sessions may share a lock, never the converse.
  function LockId(k: Key): string {
    k.name + ['\U{1f}'] + k.sessionLabel
  }

  // ---- Steps ---------------------------------------------------------------

  datatype Event =
    | Spawn(a: ActorId, role: Role, key: Key)
    | Acquire(a: ActorId)
    | Begin(a: ActorId, now: int)
    | Transmit(a: ActorId)
    | Abort(a: ActorId)
    | Receive(a: ActorId, grant: Option<Grant>)
    | Update(a: ActorId, now: int)
    | ReadBack(a: ActorId)
    | Fail(a: ActorId, now: int)
    | Release(a: ActorId)
    | Revoke(key: Key)

  predicate Enabled(w: World, e: Event) {
    match e
    case Spawn(a, _, _) => a !in w.actors
    case Acquire(a) => At(w, a) && w.actors[a].stage.Waiting? && LockId(w.actors[a].key) !in w.locks
    case Begin(a, _) => At(w, a) && w.actors[a].stage.Locked?
    case Transmit(a) => At(w, a) && w.actors[a].stage.Refreshing?
    case Abort(a) => At(w, a) && w.actors[a].stage.Refreshing?
    case Receive(a, _) => At(w, a) && w.actors[a].stage.Sent?
    case Update(a, _) => At(w, a) && w.actors[a].stage.Answered?
    case ReadBack(a) => At(w, a) && w.actors[a].stage.Updated?
    case Fail(a, _) => At(w, a) && w.actors[a].stage.Failing?
    case Release(a) => At(w, a) && w.actors[a].stage.Leaving?
    case Revoke(_) => true
  }

  predicate At(w: World, a: ActorId) {
    a in w.actors
  }

  function Move(w: World, a: ActorId, stage: Stage): World
    requires At(w, a)
  {
    w.(actors := w.actors[a := w.actors[a].(stage := stage)])
  }

  // The proxy refreshes a token that is absent or has at most 60 seconds left.
  predicate NeedsRefresh(s: Session, now: int) {
    s.access.None? || (s.expires.Some? && s.expires.value <= now + 60)
  }

  function Apply(claim: Claim, w: World, e: Event): World
    requires Enabled(w, e)
  {
    match e
    case Spawn(a, role, key) => w.(actors := w.actors[a := Actor(role, key, Waiting)])
    case Acquire(a) =>
      Move(w, a, Locked).(locks := w.locks[LockId(w.actors[a].key) := a])
    case Begin(a, now) => BeginStep(claim, w, a, now)
    case Transmit(a) =>
      var s := w.actors[a].stage.s;
      Move(w, a, Sent(s)).(sent := w.sent + [Send(s.generation, s.refresh)])
    // The registration is gone from the catalog or is no longer an OAuth one.
    case Abort(a) => Move(w, a, Failing(w.actors[a].stage.s))
    case Receive(a, grant) =>
      var s := w.actors[a].stage.s;
      Move(w, a, if grant.Some? then Answered(s, grant.value) else Failing(s))
    case Update(a, now) =>
      var Actor(_, k, Answered(s, grant)) := w.actors[a];
      Move(w, a, Updated(s, grant, now)).(rows := UpdateTokens(claim, w.rows, k, grant, now))
    case ReadBack(a) => ReadBackStep(w, a)
    case Fail(a, now) => FailStep(w, a, now)
    case Release(a) =>
      Move(w, a, Done(w.actors[a].stage.out)).(locks := w.locks - {LockId(w.actors[a].key)})
    case Revoke(k) => w.(rows := Delete(w.rows, k))
  }

  // The first statement under the lock: a read, or for a bootstrap the insert.
  function BeginStep(claim: Claim, w: World, a: ActorId, now: int): World
    requires At(w, a)
  {
    var Actor(role, k, _) := w.actors[a];
    match role
    case Proxy =>
      if k !in w.rows then Move(w, a, Leaving(Missing))
      else if w.rows[k].degraded then Move(w, a, Leaving(AlreadyDegraded))
      else if NeedsRefresh(w.rows[k], now) then Move(w, a, Refreshing(w.rows[k]))
      else Move(w, a, Leaving(TokenOf(w.rows[k], Some(now))))
    case Tick(threshold) =>
      if k !in w.rows || w.rows[k].degraded then Move(w, a, Leaving(Skipped))
      else if w.rows[k].expires.Some? && w.rows[k].expires.value > threshold then Move(w, a, Leaving(Skipped))
      else Move(w, a, Refreshing(w.rows[k]))
    case Bootstrap(refresh) =>
      if k in w.rows then Move(w, a, Leaving(Conflict))
      else
        var s := NewSession(claim, refresh, None, None, now, |w.sessions|);
        Move(w, a, Refreshing(s)).(rows := w.rows[k := s], sessions := w.sessions + [k])
  }

  function TokenOf(s: Session, checkedAt: Option<int>): Outcome {
    Token(s.access, s.account, s.expires, s.generation, checkedAt)
  }

  // A refresh that finds its row gone after the update counts as failed.
  function ReadBackStep(w: World, a: ActorId): World
    requires At(w, a) && w.actors[a].stage.Updated?
  {
    var Actor(role, k, Updated(s, _, _)) := w.actors[a];
    if k !in w.rows then Move(w, a, Failing(s))
    else Move(w, a, Leaving(if role.Proxy? then TokenOf(w.rows[k], None) else Persisted))
  }

  // A failed refresh degrades the row; a failed bootstrap rolls its row back.
  function FailStep(w: World, a: ActorId, now: int): World
    requires At(w, a)
  {
    var Actor(role, k, _) := w.actors[a];
    if role.Bootstrap? then Move(w, a, Leaving(RolledBack)).(rows := Delete(w.rows, k))
    else Move(w, a, Leaving(RefreshFailed)).(rows := MarkDegraded(w.rows, k, now))
  }

  // ---- Runs ----------------------------------------------------------------

  predicate Admits(claim: Claim, w: World, run: seq<Event>)
    decreases |run|
  {
    run == [] || (Enabled(w, run[0]) && Admits(claim, Apply(claim, w, run[0]), run[1..]))
  }

  function Exec(claim: Claim, w: World, run: seq<Event>): World
    requires Admits(claim, w, run)
    decreases |run|
  {
    if run == [] then w else Exec(claim, Apply(claim, w, run[0]), run[1..])
  }

  // ---- Invariant -----------------------------------------------------------

  // A critical actor holds its key's lock, and a held lock has a critical holder.
  ghost predicate LocksHeld(w: World) {
    && (forall a <- w.actors :: w.actors[a].stage.Critical() ==>
          LockId(w.actors[a].key) in w.locks && w.locks[LockId(w.actors[a].key)] == a)
    && (forall l <- w.locks :: w.locks[l] in w.actors
          && w.actors[w.locks[l]].stage.Critical() && LockId(w.actors[w.locks[l]].key) == l)
  }

  ghost predicate Owned(w: World, k: Key, s: Session) {
    s.generation < |w.sessions| && w.sessions[s.generation] == k
  }

  ghost predicate RowsCoherent(claim: Claim, w: World) {
    forall k <- w.rows :: Coherent(claim, w.rows[k]) && Owned(w, k, w.rows[k])
  }

  // What a proxy request hands out: a token with its own account id, and more
  // than 60 seconds of life unless this very request has just refreshed it.
  ghost predicate GoodToken(claim: Claim, out: Outcome)
    requires out.Token?
  {
    && out.access.Some?
    && out.expires.Some?
    && out.account == claim(out.access.value)
    && (out.checkedAt.Some? ==> out.expires.value > out.checkedAt.value + 60)
  }

  // Under the lock, the row is the one the actor knows about or it was revoked.
  ghost predicate ActorOk(claim: Claim, w: World, a: ActorId)
    requires At(w, a)
  {
    var Actor(role, k, stage) := w.actors[a];
    && (stage.HasSession() ==> Owned(w, k, stage.s) && !stage.s.degraded)
    && (stage.HasSession() && !stage.Updated? && k in w.rows ==> w.rows[k] == stage.s)
    && (stage.Updated? && k in w.rows ==> w.rows[k] == Refreshed(claim, stage.s, stage.grant, stage.at))
    && (stage == Leaving(RolledBack) ==> k !in w.rows)
    && (stage.Leaving? && stage.out.Token? ==> GoodToken(claim, stage.out))
    && (stage.Done? && stage.out.Token? ==> GoodToken(claim, stage.out))
  }

  ghost predicate Inv(claim: Claim, w: World) {
    && LocksHeld(w)
    && RowsCoherent(claim, w)
    && forall a <- w.actors :: ActorOk(claim, w, a)
  }

  // A daemon start: nobody is running; the table is whatever earlier runs left.
  ghost predicate Initial(claim: Claim, w: World) {
    w.locks == map[] && w.actors == map[] && w.sent == [] && RowsCoherent(claim, w)
  }

  // Sessions share a lock only if a name contains the separator: labels under one name,
  // and names without it, have locks of their own.
  lemma LocksDistinguishSessions(j: Key, k: Key)
    ensures j.name == k.name ==> (LockId(j) == LockId(k) <==> j == k)
    ensures '\U{1f}' !in j.name && '\U{1f}' !in k.name ==> (LockId(j) == LockId(k) <==> j == k)
  {
    if LockId(j) == LockId(k) {
      var l := LockId(j);
      assert l[..|j.name|] == j.name && l[|j.name|] == '\U{1f}' && l[|j.name| + 1..] == j.sessionLabel;
      assert l[..|k.name|] == k.name && l[|k.name|] == '\U{1f}' && l[|k.name| + 1..] == k.sessionLabel;
      assert |j.name| < |k.name| ==> l[|j.name|] == k.name[|j.name|];
      assert |k.name| < |j.name| ==> l[|k.name|] == j.name[|k.name|];
    }
  }

  lemma Exclusion(claim: Claim, w: World, a: ActorId, b: ActorId)
    requires Inv(claim, w)
    requires At(w, a) && At(w, b) && w.actors[a].key == w.actors[b].key
    requires w.actors[a].stage.Critical() && w.actors[b].stage.Critical()
    ensures a == b
  {
    assert w.locks[LockId(w.actors[a].key)] == a;
    assert w.locks[LockId(w.actors[b].key)] == b;
  }

  lemma StepKeepsInv(claim: Claim, w: World, e: Event)
    requires Inv(claim, w) && Enabled(w, e)
    ensures Inv(claim, Apply(claim, w, e))
  {
    StepKeepsLocks(claim, w, e);
    StepKeepsRows(claim, w, e);
    var w' := Apply(claim, w, e);
    forall b <- w'.actors ensures ActorOk(claim, w', b) {
      StepKeepsActor(claim, w, e, b);
    }
  }

  // A step of actor `a` moves `a` alone and touches no row but its own key's,
  // and that one only while it holds the lock.
  ghost predicate Framed(w: World, w': World, a: ActorId)
    requires At(w, a)
  {
    var k := w.actors[a].key;
    && At(w', a)
    && w'.actors == w.actors[a := w.actors[a].(stage := w'.actors[a].stage)]
    && w'.rows - {k} == w.rows - {k}
    && (w'.rows != w.rows ==> w.actors[a].stage.Critical())
    && w.sessions <= w'.sessions
  }

  lemma BeginFrame(claim: Claim, w: World, a: ActorId, now: int)
    requires Enabled(w, Begin(a, now))
    ensures Framed(w, BeginStep(claim, w, a, now), a)
    ensures var w' := BeginStep(claim, w, a, now);
            w'.locks == w.locks && w'.actors[a].stage.Critical()
  {
    hide NeedsRefresh, TokenOf, NewSession;
    var w', k := BeginStep(claim, w, a, now), w.actors[a].key;
    assert w'.rows - {k} == w.rows - {k};
  }

  lemma StepFrame(claim: Claim, w: World, e: Event)
    requires Enabled(w, e) && !e.Revoke? && !e.Spawn?
    ensures Framed(w, Apply(claim, w, e), e.a)
    ensures !e.Acquire? && !e.Release? ==>
              && Apply(claim, w, e).locks == w.locks
              && w.actors[e.a].stage.Critical() && Apply(claim, w, e).actors[e.a].stage.Critical()
  {
    hide BeginStep, Refreshed, TokenOf;
    if e.Begin? {
      BeginFrame(claim, w, e.a, e.now);
    }
  }

  // The row under `k` in two tables that agree everywhere else.
  lemma FramedElsewhere(w: World, w': World, a: ActorId, k: Key)
    requires At(w, a) && Framed(w, w', a) && k != w.actors[a].key
    ensures k in w'.rows <==> k in w.rows
    ensures k in w.rows ==> w'.rows[k] == w.rows[k]
  {
    var j := w.actors[a].key;
    assert k in w'.rows <==> k in w'.rows - {j};
    assert k in w.rows <==> k in w.rows - {j};
    assert k in w.rows ==> (w.rows - {j})[k] == (w'.rows - {j})[k];
  }

  lemma StepKeepsLocks(claim: Claim, w: World, e: Event)
    requires LocksHeld(w) && Enabled(w, e)
    ensures LocksHeld(Apply(claim, w, e))
  {
    if !e.Revoke? && !e.Spawn? && !e.Acquire? && !e.Release? {
      StepFrame(claim, w, e);
      MoveKeepsLocks(w, Apply(claim, w, e), e.a);
    }
  }

  lemma MoveKeepsLocks(w: World, w': World, a: ActorId)
    requires LocksHeld(w) && At(w, a) && At(w', a) && w'.locks == w.locks
    requires w'.actors == w.actors[a := w.actors[a].(stage := w'.actors[a].stage)]
    requires w.actors[a].stage.Critical() && w'.actors[a].stage.Critical()
    ensures LocksHeld(w')
  {
  }

  ghost predicate RowOk(claim: Claim, w: World, k: Key) {
    k in w.rows ==> Coherent(claim, w.rows[k]) && Owned(w, k, w.rows[k])
  }

  lemma BeginKeepsOwnRow(claim: Claim, w: World, a: ActorId, now: int)
    requires Enabled(w, Begin(a, now)) && RowOk(claim, w, w.actors[a].key)
    ensures RowOk(claim, BeginStep(claim, w, a, now), w.actors[a].key)
  {
    hide NeedsRefresh, TokenOf;
  }

  lemma StepKeepsOwnRow(claim: Claim, w: World, e: Event)
    requires Enabled(w, e) && !e.Revoke? && !e.Spawn? && RowOk(claim, w, w.actors[e.a].key)
    ensures RowOk(claim, Apply(claim, w, e), w.actors[e.a].key)
  {
    hide BeginStep, TokenOf;
    if e.Begin? {
      BeginKeepsOwnRow(claim, w, e.a, e.now);
    }
  }

  lemma StepKeepsRow(claim: Claim, w: World, e: Event, k: Key)
    requires Enabled(w, e) && RowOk(claim, w, k)
    ensures RowOk(claim, Apply(claim, w, e), k)
  {
    if !e.Revoke? && !e.Spawn? {
      if k == w.actors[e.a].key {
        StepKeepsOwnRow(claim, w, e);
      } else {
        StepFrame(claim, w, e);
        FramedElsewhere(w, Apply(claim, w, e), e.a, k);
        hide Apply;
      }
    }
  }

  lemma StepKeepsRows(claim: Claim, w: World, e: Event)
    requires RowsCoherent(claim, w) && Enabled(w, e)
    ensures RowsCoherent(claim, Apply(claim, w, e))
  {
    hide Apply, Coherent, Owned;
    var w' := Apply(claim, w, e);
    forall k <- w'.rows
      ensures Coherent(claim, w'.rows[k]) && Owned(w', k, w'.rows[k])
    {
      StepKeepsRow(claim, w, e, k);
    }
  }

  lemma StepKeepsActor(claim: Claim, w: World, e: Event, b: ActorId)
    requires Inv(claim, w) && Enabled(w, e) && At(Apply(claim, w, e), b)
    ensures ActorOk(claim, Apply(claim, w, e), b)
  {
    if At(w, b) {
      assert ActorOk(claim, w, b);
    }
    if e.Revoke? || e.Spawn? {
      hide LocksHeld, RowsCoherent;
    } else if e.a != b {
      StepFrame(claim, w, e);
      hide Apply;
      OtherActorKept(claim, w, Apply(claim, w, e), e.a, b);
    } else {
      hide Apply;
      OwnActorKept(claim, w, e);
    }
  }

  lemma OtherActorKept(claim: Claim, w: World, w': World, a: ActorId, b: ActorId)
    requires LocksHeld(w) && At(w, a) && At(w, b) && a != b && ActorOk(claim, w, b)
    requires Framed(w, w', a)
    ensures At(w', b) && ActorOk(claim, w', b)
  {
    if w.actors[a].key != w.actors[b].key {
      FramedElsewhere(w, w', a, w.actors[b].key);
    }
  }

  lemma OwnBeginKept(claim: Claim, w: World, a: ActorId, now: int)
    requires Enabled(w, Begin(a, now)) && RowsCoherent(claim, w)
    ensures At(BeginStep(claim, w, a, now), a) && ActorOk(claim, BeginStep(claim, w, a, now), a)
  {
    assert RowOk(claim, w, w.actors[a].key);
    if w.actors[a].role.Bootstrap? {
      BootstrapBeginKept(claim, w, a, now);
    } else {
      RefreshBeginKept(claim, w, a, now);
    }
  }

  lemma BootstrapBeginKept(claim: Claim, w: World, a: ActorId, now: int)
    requires At(w, a) && w.actors[a].role.Bootstrap?
    ensures At(BeginStep(claim, w, a, now), a) && ActorOk(claim, BeginStep(claim, w, a, now), a)
  {
    hide NeedsRefresh, TokenOf, GoodToken, Refreshed;
  }

  lemma RefreshBeginKept(claim: Claim, w: World, a: ActorId, now: int)
    requires At(w, a) && !w.actors[a].role.Bootstrap? && RowOk(claim, w, w.actors[a].key)
    ensures At(BeginStep(claim, w, a, now), a) && ActorOk(claim, BeginStep(claim, w, a, now), a)
  {
    hide NewSession, Refreshed;
  }

  lemma OwnUpdateKept(claim: Claim, w: World, a: ActorId, now: int)
    requires Enabled(w, Update(a, now)) && ActorOk(claim, w, a)
    ensures ActorOk(claim, Apply(claim, w, Update(a, now)), a)
  {
    hide BeginStep, ReadBackStep, FailStep;
  }

  lemma OwnExitKept(claim: Claim, w: World, e: Event)
    requires Enabled(w, e) && (e.ReadBack? || e.Fail?) && ActorOk(claim, w, e.a)
    ensures At(Apply(claim, w, e), e.a) && ActorOk(claim, Apply(claim, w, e), e.a)
  {
    hide BeginStep, UpdateTokens;
  }

  lemma OwnQuietKept(claim: Claim, w: World, e: Event)
    requires Enabled(w, e) && (e.Acquire? || e.Transmit? || e.Abort? || e.Receive? || e.Release?)
    requires ActorOk(claim, w, e.a)
    ensures At(Apply(claim, w, e), e.a) && ActorOk(claim, Apply(claim, w, e), e.a)
  {
    hide BeginStep, ReadBackStep, FailStep, UpdateTokens, LockId, GoodToken, Refreshed;
  }

  lemma OwnActorKept(claim: Claim, w: World, e: Event)
    requires Enabled(w, e) && !e.Revoke? && !e.Spawn?
    requires RowsCoherent(claim, w) && ActorOk(claim, w, e.a)
    ensures At(Apply(claim, w, e), e.a) && ActorOk(claim, Apply(claim, w, e), e.a)
  {
    hide BeginStep, ReadBackStep, FailStep, UpdateTokens, ActorOk, RowsCoherent, LockId;
    match e
    case Begin(a, now) => OwnBeginKept(claim, w, a, now);
    case Update(a, now) => OwnUpdateKept(claim, w, a, now);
    case ReadBack(_) => OwnExitKept(claim, w, e);
    case Fail(_, _) => OwnExitKept(claim, w, e);
    case _ => OwnQuietKept(claim, w, e);
  }

  lemma {:induction false} RunKeepsInv(claim: Claim, w: World, run: seq<Event>)
    requires Inv(claim, w) && Admits(claim, w, run)
    ensures Inv(claim, Exec(claim, w, run))
    decreases |run|
  {
    if run != [] {
      StepKeepsInv(claim, w, run[0]);
      RunKeepsInv(claim, Apply(claim, w, run[0]), run[1..]);
    }
  }

  // ---- A degraded session stays degraded -----------------------------------

  // Every healthy row under `k` comes from a bootstrap numbered `n` or later.
  ghost predicate HealthySince(w: World, k: Key, n: nat) {
    k in w.rows && !w.rows[k].degraded ==> w.rows[k].generation >= n
  }

  lemma StepKeepsHealthySince(claim: Claim, w: World, e: Event, k: Key, n: nat)
    requires Inv(claim, w) && Enabled(w, e) && HealthySince(w, k, n) && n <= |w.sessions|
    ensures HealthySince(Apply(claim, w, e), k, n) && n <= |Apply(claim, w, e).sessions|
  {
    if !e.Revoke? && !e.Spawn? {
      if w.actors[e.a].key == k {
        assert ActorOk(claim, w, e.a);
        hide Inv;
        OwnStepKeepsHealthySince(claim, w, e, n);
      } else {
        StepFrame(claim, w, e);
        FramedElsewhere(w, Apply(claim, w, e), e.a, k);
        hide Apply, Inv;
      }
    }
  }

  lemma OwnStepKeepsHealthySince(claim: Claim, w: World, e: Event, n: nat)
    requires Enabled(w, e) && !e.Revoke? && !e.Spawn? && ActorOk(claim, w, e.a)
    requires HealthySince(w, w.actors[e.a].key, n) && n <= |w.sessions|
    ensures HealthySince(Apply(claim, w, e), w.actors[e.a].key, n) && n <= |Apply(claim, w, e).sessions|
  {
    hide LockId, NeedsRefresh, TokenOf, GoodToken;
  }

  lemma {:induction false} RunKeepsHealthySince(claim: Claim, w: World, run: seq<Event>, k: Key, n: nat)
    requires Inv(claim, w) && Admits(claim, w, run) && HealthySince(w, k, n) && n <= |w.sessions|
    ensures HealthySince(Exec(claim, w, run), k, n)
    decreases |run|
  {
    if run != [] {
      StepKeepsInv(claim, w, run[0]);
      StepKeepsHealthySince(claim, w, run[0], k, n);
      RunKeepsHealthySince(claim, Apply(claim, w, run[0]), run[1..], k, n);
    }
  }

  // Whatever happens after a session is degraded, a row under its key is either
  // still degraded or belongs to a session bootstrapped later.
  lemma DegradedSticks(claim: Claim, w: World, run: seq<Event>, k: Key)
    requires Inv(claim, w) && Admits(claim, w, run)
    requires k in w.rows && w.rows[k].degraded
    ensures var w' := Exec(claim, w, run);
            k in w'.rows ==> w'.rows[k].degraded || w'.rows[k].generation >= |w.sessions|
  {
    RunKeepsHealthySince(claim, w, run, k, |w.sessions|);
  }

  // ---- A refresh only ever touches the session it read ---------------------

  lemma StepKeepsSnapshot(claim: Claim, w: World, e: Event, a: ActorId)
    requires Enabled(w, e) && At(w, a)
    requires w.actors[a].stage.HasSession() || w.actors[a].stage.Leaving? || w.actors[a].stage.Done?
    ensures var w' := Apply(claim, w, e);
            && At(w', a)
            && (w'.actors[a].stage.HasSession() || w'.actors[a].stage.Leaving? || w'.actors[a].stage.Done?)
            && (w'.actors[a].stage.HasSession() ==>
                  w.actors[a].stage.HasSession() && w'.actors[a].stage.s == w.actors[a].stage.s)
  {
    if !e.Revoke? && !e.Spawn? {
      StepFrame(claim, w, e);
    }
  }

  lemma {:induction false} RunKeepsSnapshot(claim: Claim, w: World, run: seq<Event>, a: ActorId)
    requires Admits(claim, w, run) && At(w, a)
    requires w.actors[a].stage.HasSession() || w.actors[a].stage.Leaving? || w.actors[a].stage.Done?
    ensures var w' := Exec(claim, w, run);
            && At(w', a)
            && (w'.actors[a].stage.HasSession() || w'.actors[a].stage.Leaving? || w'.actors[a].stage.Done?)
            && (w'.actors[a].stage.HasSession() ==>
                  w.actors[a].stage.HasSession() && w'.actors[a].stage.s == w.actors[a].stage.s)
    decreases |run|
  {
    if run != [] {
      StepKeepsSnapshot(claim, w, run[0], a);
      RunKeepsSnapshot(claim, Apply(claim, w, run[0]), run[1..], a);
    }
  }

  lemma StepTouchesOwnSession(claim: Claim, w: World, e: Event, g: nat, k: Key)
    requires Enabled(w, e) && !e.Spawn? && !e.Revoke? && ActorOk(claim, w, e.a)
    requires var stage := w.actors[e.a].stage;
             stage.Leaving? || (stage.HasSession() && stage.s.generation == g)
    requires k in w.rows && w.rows[k].generation != g
    ensures var w' := Apply(claim, w, e); k in w'.rows && w'.rows[k] == w.rows[k]
  {
    if k != w.actors[e.a].key {
      StepFrame(claim, w, e);
      FramedElsewhere(w, Apply(claim, w, e), e.a, k);
      hide Apply;
    }
  }

  // Once an actor has read (or inserted) a row, none of its later steps changes
  // or deletes a row of any other generation, whatever ran in between.
  lemma RefreshTouchesOwnSession(claim: Claim, w: World, run: seq<Event>, e: Event)
    requires Inv(claim, w) && Admits(claim, w, run) && Enabled(Exec(claim, w, run), e)
    requires !e.Spawn? && !e.Revoke? && At(w, e.a) && w.actors[e.a].stage.HasSession()
    ensures var before := Exec(claim, w, run);
            var after := Apply(claim, before, e);
            forall k <- before.rows :: before.rows[k].generation != w.actors[e.a].stage.s.generation ==>
              k in after.rows && after.rows[k] == before.rows[k]
  {
    RunKeepsInv(claim, w, run);
    RunKeepsSnapshot(claim, w, run, e.a);
    var before, g := Exec(claim, w, run), w.actors[e.a].stage.s.generation;
    assert ActorOk(claim, before, e.a);
    hide Apply, ActorOk, LocksHeld, RowsCoherent;
    forall k <- before.rows | before.rows[k].generation != g
      ensures var after := Apply(claim, before, e); k in after.rows && after.rows[k] == before.rows[k]
    {
      StepTouchesOwnSession(claim, before, e, g, k);
    }
  }

  // A bootstrap whose exchange failed holds the lock over an absent row.
  lemma FailedBootstrapLeavesNoRow(claim: Claim, w: World, run: seq<Event>, a: ActorId)
    requires Initial(claim, w) && Admits(claim, w, run)
    ensures var w' := Exec(claim, w, run);
            At(w', a) && w'.actors[a].stage == Leaving(RolledBack) ==> w'.actors[a].key !in w'.rows
  {
    RunKeepsInv(claim, w, run);
  }

  // ---- Tokens handed to proxy requests -------------------------------------

  lemma ServedTokensAreGood(claim: Claim, w: World, run: seq<Event>)
    requires Initial(claim, w) && Admits(claim, w, run)
    ensures var w' := Exec(claim, w, run);
            && (forall k <- w'.rows :: Coherent(claim, w'.rows[k]))
            && (forall a <- w'.actors :: w'.actors[a].stage.Done? && w'.actors[a].stage.out.Token? ==>
                  GoodToken(claim, w'.actors[a].stage.out))
  {
    RunKeepsInv(claim, w, run);
    var w' := Exec(claim, w, run);
    forall a <- w'.actors ensures ActorOk(claim, w', a) {}
  }

  // A refreshed token is the very one this request's exchange was granted.
  lemma RefreshServesItsGrant(claim: Claim, w: World, a: ActorId)
    requires Inv(claim, w) && Enabled(w, ReadBack(a)) && w.actors[a].role.Proxy?
    ensures var stage, stage' := w.actors[a].stage, Apply(claim, w, ReadBack(a)).actors[a].stage;
            && (stage'.Leaving? <==> w.actors[a].key in w.rows)
            && (stage'.Leaving? ==>
                  stage'.out == Token(Some(stage.grant.access), claim(stage.grant.access),
                                      Some(stage.grant.expires), stage.s.generation, None))
  {
    assert ActorOk(claim, w, a);
  }

  // ---- A rotated refresh token is never sent twice -------------------------

  ghost predicate Unspent(w: World, g: nat, token: string) {
    Send(g, token) !in w.sent
  }

  // The provider rotates: a success for generation `g` carries a refresh token
  // that has not been presented for it before.
  ghost predicate Rotates(w: World, e: Event, g: nat)
    requires Enabled(w, e)
  {
    e.Receive? && e.grant.Some? && w.actors[e.a].stage.s.generation == g ==>
      e.grant.value.refresh.Some? && Unspent(w, g, e.grant.value.refresh.value)
  }

  ghost predicate AlwaysRotates(claim: Claim, w: World, run: seq<Event>, g: nat)
    requires Admits(claim, w, run)
    decreases |run|
  {
    run == [] || (Rotates(w, run[0], g) && AlwaysRotates(claim, Apply(claim, w, run[0]), run[1..], g))
  }

  ghost predicate SentOnce(sent: seq<Send>, g: nat) {
    forall i, j :: 0 <= i < j < |sent| && sent[i].generation == g ==> sent[i] != sent[j]
  }

  // Actor `a` has presented the token of generation `g` and not yet stored a new one.
  ghost predicate Spending(w: World, a: ActorId, g: nat) {
    && At(w, a)
    && (w.actors[a].stage.Sent? || w.actors[a].stage.Answered? || w.actors[a].stage.Failing?)
    && w.actors[a].stage.s.generation == g
  }

  ghost predicate StageFresh(w: World, a: ActorId, g: nat)
    requires At(w, a)
  {
    var stage := w.actors[a].stage;
    && (stage.Refreshing? && stage.s.generation == g ==> Unspent(w, g, stage.s.refresh))
    && (stage.Answered? && stage.s.generation == g ==>
          stage.grant.refresh.Some? && Unspent(w, g, stage.grant.refresh.value))
  }

  ghost predicate RowFresh(w: World, k: Key, g: nat)
    requires k in w.rows
  {
    w.rows[k].generation == g && !w.rows[k].degraded ==>
      Unspent(w, g, w.rows[k].refresh) || exists a :: Spending(w, a, g)
  }

  ghost predicate FreshInv(w: World, g: nat) {
    && SentOnce(w.sent, g)
    && (forall s <- w.sent :: s.generation < |w.sessions|)
    && (forall a <- w.actors :: StageFresh(w, a, g))
    && (forall k <- w.rows :: RowFresh(w, k, g))
  }

  // Two critical actors working on the same generation are one actor.
  lemma OneActorPerGeneration(claim: Claim, w: World, a: ActorId, b: ActorId)
    requires Inv(claim, w) && At(w, a) && At(w, b)
    requires w.actors[a].stage.HasSession() && w.actors[b].stage.HasSession()
    requires w.actors[a].stage.s.generation == w.actors[b].stage.s.generation
    ensures a == b
  {
    assert ActorOk(claim, w, a) && ActorOk(claim, w, b);
    Exclusion(claim, w, a, b);
  }

  // What a step adds to the log.
  function Presented(w: World, e: Event): seq<Send>
    requires Enabled(w, e)
  {
    if e.Transmit? then [Send(w.actors[e.a].stage.s.generation, w.actors[e.a].stage.s.refresh)] else []
  }

  lemma StepLog(claim: Claim, w: World, e: Event)
    requires Enabled(w, e)
    ensures Apply(claim, w, e).sent == w.sent + Presented(w, e)
    ensures |w.sessions| <= |Apply(claim, w, e).sessions|
  {
    hide LockId, NeedsRefresh, TokenOf, UpdateTokens, MarkDegraded, Delete, NewSession;
  }

  lemma OtherStageFresh(claim: Claim, w: World, w': World, e: Event, g: nat, b: ActorId)
    requires Inv(claim, w) && Enabled(w, e) && !e.Revoke? && !e.Spawn?
    requires At(w, b) && StageFresh(w, b, g) && e.a != b
    requires Framed(w, w', e.a) && w'.sent == w.sent + Presented(w, e)
    ensures At(w', b) && StageFresh(w', b, g)
  {
    if e.Transmit? && w.actors[b].stage.HasSession()
       && w.actors[b].stage.s.generation == w.actors[e.a].stage.s.generation {
      OneActorPerGeneration(claim, w, e.a, b);
    }
    hide Inv, LocksHeld, RowsCoherent, ActorOk;
  }

  lemma OwnStageFresh(claim: Claim, w: World, e: Event, g: nat)
    requires Enabled(w, e) && !e.Revoke? && !e.Spawn? && !e.Begin?
    requires StageFresh(w, e.a, g) && Rotates(w, e, g)
    ensures At(Apply(claim, w, e), e.a) && StageFresh(Apply(claim, w, e), e.a, g)
  {
    hide LockId, NeedsRefresh, TokenOf, UpdateTokens, MarkDegraded, Delete, NewSession, BeginStep;
  }

  lemma StepKeepsStageFresh(claim: Claim, w: World, e: Event, g: nat, b: ActorId)
    requires Inv(claim, w) && Enabled(w, e) && FreshInv(w, g) && Rotates(w, e, g)
    requires At(Apply(claim, w, e), b)
    ensures StageFresh(Apply(claim, w, e), b, g)
  {
    if At(w, b) {
      assert StageFresh(w, b, g);
    }
    if e.Revoke? || e.Spawn? {
      hide Inv, FreshInv;
    } else if e.a != b {
      StepFrame(claim, w, e);
      StepLog(claim, w, e);
      OtherStageFresh(claim, w, Apply(claim, w, e), e, g, b);
    } else if e.Begin? {
      BeginIsFresh(claim, w, e, g);
    } else {
      OwnStageFresh(claim, w, e, g);
    }
  }

  // The row a refresh starts from holds a token that was not presented yet: a
  // presenting actor would hold the lock.
  lemma BeginIsFresh(claim: Claim, w: World, e: Event, g: nat)
    requires Inv(claim, w) && Enabled(w, e) && FreshInv(w, g) && e.Begin?
    ensures StageFresh(Apply(claim, w, e), e.a, g)
  {
    HolderRowFresh(claim, w, e.a, g);
  }

  lemma StepKeepsRowFresh(claim: Claim, w: World, e: Event, g: nat, k: Key)
    requires Inv(claim, w) && Enabled(w, e) && FreshInv(w, g)
    requires k in Apply(claim, w, e).rows
    ensures RowFresh(Apply(claim, w, e), k, g)
  {
    var w' := Apply(claim, w, e);
    if e.Revoke? || e.Spawn? {
      assert RowFresh(w, k, g);
      OutsiderKeepsRowFresh(claim, w, e, g, k);
    } else {
      StepFrame(claim, w, e);
      if w.actors[e.a].key == k {
        hide Apply;
        assert ActorOk(claim, w, e.a) && StageFresh(w, e.a, g);
        if k in w.rows {
          assert RowFresh(w, k, g);
          if w.actors[e.a].stage.Critical() && !Spending(w, e.a, g) {
            HolderRowFresh(claim, w, e.a, g);
          }
        }
        hide LocksHeld, RowsCoherent, ActorOk, StageFresh;
        if !e.Acquire? {
          assert w.actors[e.a].stage.Critical();
        }
        OwnRowFresh(claim, w, e, g);
      } else {
        hide Apply;
        FramedElsewhere(w, w', e.a, k);
        assert RowFresh(w, k, g);
        StepLog(claim, w, e);
        OtherRowFresh(claim, w, w', e, g, k);
      }
    }
  }

  lemma OutsiderKeepsRowFresh(claim: Claim, w: World, e: Event, g: nat, k: Key)
    requires Enabled(w, e) && (e.Revoke? || e.Spawn?)
    requires k in w.rows && RowFresh(w, k, g) && k in Apply(claim, w, e).rows
    ensures RowFresh(Apply(claim, w, e), k, g)
  {
    forall b | Spending(w, b, g) ensures Spending(Apply(claim, w, e), b, g) {}
  }

  lemma OtherRowFresh(claim: Claim, w: World, w': World, e: Event, g: nat, k: Key)
    requires Inv(claim, w) && Enabled(w, e) && !e.Revoke? && !e.Spawn? && k != w.actors[e.a].key
    requires Framed(w, w', e.a) && w'.sent == w.sent + Presented(w, e)
    requires k in w.rows && RowFresh(w, k, g)
    requires k in w'.rows && w'.rows[k] == w.rows[k]
    ensures RowFresh(w', k, g)
  {
    assert Owned(w, k, w.rows[k]);
    assert ActorOk(claim, w, e.a);
    forall b | Spending(w, b, g) && w.rows[k].generation == g
      ensures Spending(w', b, g)
    {
      assert ActorOk(claim, w, b);
    }
    hide Inv, LocksHeld, RowsCoherent;
  }

  lemma OwnRowFresh(claim: Claim, w: World, e: Event, g: nat)
    requires Enabled(w, e) && !e.Revoke? && !e.Spawn? && w.actors[e.a].key in Apply(claim, w, e).rows
    requires ActorOk(claim, w, e.a) && StageFresh(w, e.a, g)
    requires e.Begin? ==> forall s <- w.sent :: s.generation < |w.sessions|
    requires var k := w.actors[e.a].key;
             k in w.rows && w.rows[k].generation == g && !w.rows[k].degraded ==>
               || Unspent(w, g, w.rows[k].refresh)
               || (if e.Acquire? then exists b :: Spending(w, b, g) else Spending(w, e.a, g))
    ensures RowFresh(Apply(claim, w, e), w.actors[e.a].key, g)
  {
    hide LockId, NeedsRefresh, TokenOf, GoodToken;
    var w' := Apply(claim, w, e);
    match e
    case Transmit(a) => assert Spending(w', a, w.actors[a].stage.s.generation);
    case Abort(a) => assert Spending(w', a, w.actors[a].stage.s.generation);
    case Receive(a, _) =>
      assert w'.actors[a].stage.HasSession() && w'.actors[a].stage.s == w.actors[a].stage.s;
      assert Spending(w', a, w.actors[a].stage.s.generation);
    case Acquire(_) =>
      forall b | Spending(w, b, g) ensures Spending(w', b, g) {}
    case Update(_, _) =>
    case Fail(_, _) =>
    case Begin(_, _) =>
    case ReadBack(_) =>
    case Release(_) =>
  }

  // The row of a lock holder that is not mid-exchange holds an unpresented token.
  lemma HolderRowFresh(claim: Claim, w: World, a: ActorId, g: nat)
    requires Inv(claim, w) && FreshInv(w, g) && At(w, a)
    requires w.actors[a].stage.Critical() && !Spending(w, a, g)
    ensures var k := w.actors[a].key;
            k in w.rows && w.rows[k].generation == g && !w.rows[k].degraded ==>
              Unspent(w, g, w.rows[k].refresh)
  {
    var k := w.actors[a].key;
    if k in w.rows {
      assert RowFresh(w, k, g) && Owned(w, k, w.rows[k]);
      forall b | Spending(w, b, g) ensures ActorOk(claim, w, b) {}
    }
  }

  lemma StepKeepsSentOnce(w: World, e: Event, g: nat)
    requires Enabled(w, e) && SentOnce(w.sent, g)
    requires e.Transmit? ==> StageFresh(w, e.a, g)
    ensures SentOnce(w.sent + Presented(w, e), g)
  {
  }

  lemma StepKeepsFresh(claim: Claim, w: World, e: Event, g: nat)
    requires Inv(claim, w) && Enabled(w, e) && FreshInv(w, g) && Rotates(w, e, g)
    ensures FreshInv(Apply(claim, w, e), g)
  {
    var w' := Apply(claim, w, e);
    StepLog(claim, w, e);
    StepKeepsSentOnce(w, e, g);
    if e.Transmit? {
      assert ActorOk(claim, w, e.a);
    }
    forall b <- w'.actors ensures StageFresh(w', b, g) {
      StepKeepsStageFresh(claim, w, e, g, b);
    }
    forall k <- w'.rows ensures RowFresh(w', k, g) {
      StepKeepsRowFresh(claim, w, e, g, k);
    }
    hide Apply, LocksHeld, RowsCoherent, StageFresh, RowFresh, SentOnce, Rotates;
  }

  lemma {:induction false} RunKeepsFresh(claim: Claim, w: World, run: seq<Event>, g: nat)
    requires Inv(claim, w) && Admits(claim, w, run) && FreshInv(w, g) && AlwaysRotates(claim, w, run, g)
    ensures FreshInv(Exec(claim, w, run), g)
    decreases |run|
  {
    if run != [] {
      StepKeepsInv(claim, w, run[0]);
      StepKeepsFresh(claim, w, run[0], g);
      RunKeepsFresh(claim, Apply(claim, w, run[0]), run[1..], g);
    }
  }

  // With a rotating provider no refresh token value is presented twice within
  // one session, whatever the number of concurrent callers.
  lemma RefreshTokensSentOnce(claim: Claim, w: World, run: seq<Event>, g: nat)
    requires Initial(claim, w) && Admits(claim, w, run) && AlwaysRotates(claim, w, run, g)
    ensures SentOnce(Exec(claim, w, run).sent, g)
  {
    RunKeepsFresh(claim, w, run, g);
  }

  // ---- When a token is refreshed -------------------------------------------

  // What the first read under the lock has to find for a request or a tick to refresh: a
  // healthy row, without a token or expiring within a minute of the clock for a request,
  // without an expiry or expiring by the threshold for a tick.
  ghost predicate Due(w: World, a: ActorId, now: int) {
    && At(w, a) && !w.actors[a].role.Bootstrap? && w.actors[a].key in w.rows
    && var s := w.rows[w.actors[a].key];
       && !s.degraded
       && match w.actors[a].role {
         case Proxy => s.access.None? || (s.expires.Some? && s.expires.value - now <= 60)
         case Tick(threshold) => s.expires.None? || s.expires.value <= threshold
         case Bootstrap(_) => false
       }
  }

  // A request or tick refreshes exactly the row that is due. Otherwise a tick skips it, and
  // a request reports that there is no session or a degraded one, or serves what is stored.
  lemma RefreshesIffDue(claim: Claim, w: World, a: ActorId, now: int)
    requires Enabled(w, Begin(a, now)) && !w.actors[a].role.Bootstrap?
    ensures var k, stage := w.actors[a].key, Apply(claim, w, Begin(a, now)).actors[a].stage;
            && Apply(claim, w, Begin(a, now)).rows == w.rows
            && (Due(w, a, now) ==> stage == Refreshing(w.rows[k]))
            && (!Due(w, a, now) && w.actors[a].role.Tick? ==> stage == Leaving(Skipped))
            && (!Due(w, a, now) && w.actors[a].role.Proxy? ==>
                  && (stage == Leaving(Missing) <==> k !in w.rows)
                  && (stage == Leaving(AlreadyDegraded) <==> k in w.rows && w.rows[k].degraded)
                  && (k in w.rows && !w.rows[k].degraded ==>
                        stage == Leaving(Token(w.rows[k].access, w.rows[k].account, w.rows[k].expires,
                                               w.rows[k].generation, Some(now)))))
  {
    hide LockId;
  }

  // A bootstrap is refused exactly when the key is taken; otherwise it stores the token it
  // was given, in a healthy row of a new generation, and goes on to present it.
  lemma BootstrapStoresItsToken(claim: Claim, w: World, a: ActorId, now: int)
    requires Enabled(w, Begin(a, now)) && w.actors[a].role.Bootstrap?
    ensures var k, w' := w.actors[a].key, Apply(claim, w, Begin(a, now));
            && (w'.actors[a].stage == Leaving(Conflict) <==> k in w.rows)
            && (k in w.rows ==> w'.rows == w.rows)
            && (k !in w.rows ==>
                  && k in w'.rows && w'.rows == w.rows[k := w'.rows[k]]
                  && w'.actors[a].stage == Refreshing(w'.rows[k])
                  && w'.rows[k].refresh == w.actors[a].role.refresh
                  && w'.rows[k].access.None? && w'.rows[k].expires.None? && !w'.rows[k].degraded
                  && w'.rows[k].generation == |w.sessions| < |w'.sessions|)
  {
    hide LockId;
  }

  // The actor, a request or a tick, has set out to refresh ...
  ghost predicate Refreshes(w: World, a: ActorId) {
    && At(w, a) && !w.actors[a].role.Bootstrap?
    && match w.actors[a].stage {
      case Leaving(out) => AfterRefresh(out)
      case Done(out) => AfterRefresh(out)
      case _ => w.actors[a].stage.HasSession()
    }
  }

  ghost predicate AfterRefresh(out: Outcome) {
    out.Persisted? || out.RefreshFailed? || (out.Token? && out.checkedAt.None?)
  }

  // ... or has left without.
  ghost predicate Declines(w: World, a: ActorId) {
    && At(w, a) && !w.actors[a].role.Bootstrap?
    && match w.actors[a].stage {
      case Leaving(out) => !AfterRefresh(out)
      case Done(out) => !AfterRefresh(out)
      case _ => false
    }
  }

  // In this run the actor's first read finds its row due (or finds it not due).
  ghost predicate BeginsWith(claim: Claim, w: World, run: seq<Event>, a: ActorId, due: bool)
    requires Admits(claim, w, run)
    decreases |run|
  {
    && run != []
    && (BeginsNow(w, run[0], a, due) || BeginsWith(claim, Apply(claim, w, run[0]), run[1..], a, due))
  }

  ghost predicate BeginsNow(w: World, e: Event, a: ActorId, due: bool) {
    e.Begin? && e.a == a && At(w, a) && !w.actors[a].role.Bootstrap? && Due(w, a, e.now) == due
  }

  lemma StepRefreshesIff(claim: Claim, w: World, e: Event, a: ActorId)
    requires Enabled(w, e)
    ensures Refreshes(Apply(claim, w, e), a) <==> Refreshes(w, a) || BeginsNow(w, e, a, true)
    ensures Declines(Apply(claim, w, e), a) <==> Declines(w, a) || BeginsNow(w, e, a, false)
  {
    if e.Spawn? || e.Revoke? {
      hide LockId, Due, AfterRefresh;
    } else if e.a != a {
      StepFrame(claim, w, e);
      hide Apply, Due, AfterRefresh;
    } else if e.Begin? {
      OwnBeginRefreshesIff(claim, w, a, e.now);
    } else {
      OwnStepKeepsCourse(claim, w, e);
      hide Apply, Due, Refreshes, Declines;
    }
  }

  lemma OwnBeginRefreshesIff(claim: Claim, w: World, a: ActorId, now: int)
    requires Enabled(w, Begin(a, now))
    ensures var w' := Apply(claim, w, Begin(a, now));
            && (Refreshes(w', a) <==> BeginsNow(w, Begin(a, now), a, true)) && !Refreshes(w, a)
            && (Declines(w', a) <==> BeginsNow(w, Begin(a, now), a, false)) && !Declines(w, a)
  {
    StepFrame(claim, w, Begin(a, now));
    if !w.actors[a].role.Bootstrap? {
      RefreshesIffDue(claim, w, a, now);
    }
    hide Apply, Due;
  }

  lemma OwnStepKeepsCourse(claim: Claim, w: World, e: Event)
    requires Enabled(w, e) && !e.Spawn? && !e.Revoke? && !e.Begin?
    ensures Refreshes(Apply(claim, w, e), e.a) <==> Refreshes(w, e.a)
    ensures Declines(Apply(claim, w, e), e.a) <==> Declines(w, e.a)
  {
    hide LockId, UpdateTokens, MarkDegraded, Delete, BeginStep;
  }

  lemma {:induction false} RunRefreshesIff(claim: Claim, w: World, run: seq<Event>, a: ActorId)
    requires Admits(claim, w, run)
    ensures Refreshes(Exec(claim, w, run), a) <==> Refreshes(w, a) || BeginsWith(claim, w, run, a, true)
    ensures Declines(Exec(claim, w, run), a) <==> Declines(w, a) || BeginsWith(claim, w, run, a, false)
    decreases |run|
  {
    hide Apply, Enabled, Refreshes, Declines, BeginsNow;
    if run != [] {
      StepRefreshesIff(claim, w, run[0], a);
      RunRefreshesIff(claim, Apply(claim, w, run[0]), run[1..], a);
    }
  }

  // In every run, a request or tick has set out to refresh if and only if its first read
  // found the row due, and has left without if and only if that read found it not due.
  lemma RefreshedIffWasDue(claim: Claim, w: World, run: seq<Event>, a: ActorId)
    requires Initial(claim, w) && Admits(claim, w, run)
    ensures Refreshes(Exec(claim, w, run), a) <==> BeginsWith(claim, w, run, a, true)
    ensures Declines(Exec(claim, w, run), a) <==> BeginsWith(claim, w, run, a, false)
  {
    RunRefreshesIff(claim, w, run, a);
  }

  // So whoever presents a token, other than a bootstrap, had found its row due.
  lemma PresentsOnlyWhenDue(claim: Claim, w: World, run: seq<Event>, a: ActorId)
    requires Initial(claim, w) && Admits(claim, w, run) && Enabled(Exec(claim, w, run), Transmit(a))
    ensures Exec(claim, w, run).actors[a].role.Bootstrap? || BeginsWith(claim, w, run, a, true)
  {
    RunRefreshesIff(claim, w, run, a);
  }

  // ---- Progress ------------------------------------------------------------

  // How many more steps an actor can take.
  function Rank(stage: Stage): nat {
    match stage
    case Waiting => 8
    case Locked => 7
    case Refreshing(_) => 6
    case Sent(_) => 5
    case Answered(_, _) => 4
    case Updated(_, _, _) => 3
    case Failing(_) => 2
    case Leaving(_) => 1
    case Done(_) => 0
  }

  predicate StepOf(e: Event, a: ActorId) {
    !e.Spawn? && !e.Revoke? && e.a == a
  }

  function StepsOf(run: seq<Event>, a: ActorId): nat {
    if run == [] then 0 else (if StepOf(run[0], a) then 1 else 0) + StepsOf(run[1..], a)
  }

  lemma StepLowersRank(claim: Claim, w: World, e: Event, a: ActorId)
    requires Enabled(w, e) && At(w, a)
    ensures At(Apply(claim, w, e), a)
    ensures Rank(Apply(claim, w, e).actors[a].stage) + (if StepOf(e, a) then 1 else 0) <= Rank(w.actors[a].stage)
  {
    hide LockId, NeedsRefresh, TokenOf, UpdateTokens, MarkDegraded, Delete, NewSession;
  }

  // Whatever the endpoint answers and whoever interferes, an actor is done after at
  // most eight steps of its own.
  lemma {:induction false} StepsAreBounded(claim: Claim, w: World, run: seq<Event>, a: ActorId)
    requires Admits(claim, w, run) && At(w, a)
    ensures At(Exec(claim, w, run), a)
    ensures StepsOf(run, a) + Rank(Exec(claim, w, run).actors[a].stage) <= Rank(w.actors[a].stage) <= 8
    decreases |run|
  {
    hide Apply, Enabled;
    if run != [] {
      StepLowersRank(claim, w, run[0], a);
      StepsAreBounded(claim, Apply(claim, w, run[0]), run[1..], a);
    }
  }

  // An unfinished actor can step, or it waits for a lock whose holder can.
  lemma NoDeadlock(claim: Claim, w: World, a: ActorId) returns (e: Event)
    requires Inv(claim, w) && At(w, a) && !w.actors[a].stage.Done?
    ensures Enabled(w, e)
    ensures StepOf(e, a) || (w.actors[a].stage.Waiting? && LockId(w.actors[a].key) in w.locks
                             && StepOf(e, w.locks[LockId(w.actors[a].key)]))
  {
    var l := LockId(w.actors[a].key);
    if w.actors[a].stage.Waiting? && l !in w.locks {
      e := Acquire(a);
    } else {
      e := OwnStep(w, if w.actors[a].stage.Waiting? then w.locks[l] else a);
    }
  }

  lemma OwnStep(w: World, a: ActorId) returns (e: Event)
    requires At(w, a) && w.actors[a].stage.Critical()
    ensures Enabled(w, e) && StepOf(e, a)
  {
    match w.actors[a].stage
    case Locked => e := Begin(a, 0);
    case Refreshing(_) => e := Transmit(a);
    case Sent(_) => e := Receive(a, None);
    case Answered(_, _) => e := Update(a, 0);
    case Updated(_, _, _) => e := ReadBack(a);
    case Failing(_) => e := Fail(a, 0);
    case Leaving(_) => e := Release(a);
  }

  // ---- When an answer lets a token be presented again ----------------------

  lemma {:induction false} ExecAppend(claim: Claim, w: World, run: seq<Event>, e: Event)
    requires Admits(claim, w, run) && Enabled(Exec(claim, w, run), e)
    ensures Admits(claim, w, run + [e])
    ensures Exec(claim, w, run + [e]) == Apply(claim, Exec(claim, w, run), e)
    decreases |run|
  {
    hide Apply, Enabled;
    if run == [] {
      assert run + [e] == [e] && [e][1..] == [];
    } else {
      assert (run + [e])[1..] == run[1..] + [e];
      ExecAppend(claim, Apply(claim, w, run[0]), run[1..], e);
    }
  }

  // Nobody hears from the provider.
  ghost predicate Silent(run: seq<Event>) {
    forall e <- run :: !e.Receive?
  }

  lemma {:induction false} SilenceRotates(claim: Claim, w: World, run: seq<Event>, g: nat)
    requires Admits(claim, w, run) && Silent(run)
    ensures AlwaysRotates(claim, w, run, g)
    decreases |run|
  {
    hide Apply, Enabled;
    if run != [] {
      SilenceRotates(claim, Apply(claim, w, run[0]), run[1..], g);
    }
  }

  // A fresh proxy request on an unlocked session that needs a refresh presents
  // the stored token.
  lemma PresentToken(claim: Claim, w0: World, prefix: seq<Event>, k: Key, a: ActorId, now: int)
    returns (run: seq<Event>)
    requires Admits(claim, w0, prefix) && Silent(prefix)
    requires var w := Exec(claim, w0, prefix);
             a !in w.actors && LockId(k) !in w.locks
             && k in w.rows && !w.rows[k].degraded && NeedsRefresh(w.rows[k], now)
    ensures Admits(claim, w0, run) && Silent(run) && prefix <= run
    ensures var w, w' := Exec(claim, w0, prefix), Exec(claim, w0, run);
            && w' == w.(actors := w.actors[a := Actor(Proxy, k, Sent(w.rows[k]))],
                        locks := w.locks[LockId(k) := a],
                        sent := w.sent + [Send(w.rows[k].generation, w.rows[k].refresh)])
  {
    var w := Exec(claim, w0, prefix);
    var locked := LockForRefresh(claim, w, k, a);
    var asked := AskProvider(claim, locked, k, a, now);
    hide Apply, Enabled, LockId, NeedsRefresh;
    ExecAppend(claim, w0, prefix, Spawn(a, Proxy, k));
    run := prefix + [Spawn(a, Proxy, k)];
    ExecAppend(claim, w0, run, Acquire(a));
    run := run + [Acquire(a)];
    ExecAppend(claim, w0, run, Begin(a, now));
    run := run + [Begin(a, now)];
    ExecAppend(claim, w0, run, Transmit(a));
    run := run + [Transmit(a)];
  }

  lemma LockForRefresh(claim: Claim, w: World, k: Key, a: ActorId) returns (w': World)
    requires a !in w.actors && LockId(k) !in w.locks
    ensures var spawn, acquire := Spawn(a, Proxy, k), Acquire(a);
            && Enabled(w, spawn) && Enabled(Apply(claim, w, spawn), acquire)
            && w' == Apply(claim, Apply(claim, w, spawn), acquire)
    ensures w' == w.(actors := w.actors[a := Actor(Proxy, k, Locked)], locks := w.locks[LockId(k) := a])
  {
    hide LockId;
    w' := w.(actors := w.actors[a := Actor(Proxy, k, Locked)], locks := w.locks[LockId(k) := a]);
  }

  lemma AskProvider(claim: Claim, w: World, k: Key, a: ActorId, now: int) returns (w': World)
    requires At(w, a) && w.actors[a] == Actor(Proxy, k, Locked)
    requires k in w.rows && !w.rows[k].degraded && NeedsRefresh(w.rows[k], now)
    ensures var begin, transmit := Begin(a, now), Transmit(a);
            && Enabled(w, begin) && Enabled(Apply(claim, w, begin), transmit)
            && w' == Apply(claim, Apply(claim, w, begin), transmit)
    ensures w' == w.(actors := w.actors[a := Actor(Proxy, k, Sent(w.rows[k]))],
                     sent := w.sent + [Send(w.rows[k].generation, w.rows[k].refresh)])
  {
    hide LockId, NeedsRefresh;
    w' := w.(actors := w.actors[a := Actor(Proxy, k, Sent(w.rows[k]))],
             sent := w.sent + [Send(w.rows[k].generation, w.rows[k].refresh)]);
  }

  // An actor that was answered stores the grant and lets go of the lock.
  lemma StoreAndRelease(claim: Claim, w: World, a: ActorId) returns (run: seq<Event>)
    requires Inv(claim, w) && At(w, a) && w.actors[a].stage.Answered? && w.actors[a].key in w.rows
    ensures Admits(claim, w, run) && Silent(run)
    ensures var w', k := Exec(claim, w, run), w.actors[a].key;
            && w'.rows == w.rows[k := Refreshed(claim, w.actors[a].stage.s, w.actors[a].stage.grant, 0)]
            && w'.actors.Keys == w.actors.Keys && LockId(k) !in w'.locks && w'.sent == w.sent
  {
    assert ActorOk(claim, w, a);
    hide Inv, LocksHeld, RowsCoherent, ActorOk, LockId, Refreshed;
    run := [];
    ExecAppend(claim, w, run, Update(a, 0));
    run := run + [Update(a, 0)];
    ExecAppend(claim, w, run, ReadBack(a));
    run := run + [ReadBack(a)];
    ExecAppend(claim, w, run, Release(a));
    run := run + [Release(a)];
  }

  lemma UnusedActor(actors: map<ActorId, Actor>) returns (a: ActorId)
    ensures a !in actors
  {
    a := Bound(actors.Keys);
  }

  lemma {:induction false} Bound(ids: set<ActorId>) returns (n: nat)
    ensures forall i <- ids :: i < n
    decreases |ids|
  {
    if ids == {} {
      n := 0;
    } else {
      var i :| i in ids;
      n := Bound(ids - {i});
      n := if i < n then n else i + 1;
      assert forall j <- ids :: j == i || j in ids - {i};
    }
  }

  // An actor in `Sent` has its token in the log.
  ghost predicate Logged(w: World) {
    forall a <- w.actors :: w.actors[a].stage.Sent? ==>
      Send(w.actors[a].stage.s.generation, w.actors[a].stage.s.refresh) in w.sent
  }

  lemma StepKeepsLogged(claim: Claim, w: World, e: Event)
    requires Logged(w) && Enabled(w, e)
    ensures Logged(Apply(claim, w, e))
  {
    hide LockId, NeedsRefresh, TokenOf, UpdateTokens, MarkDegraded, Delete, NewSession;
  }

  lemma {:induction false} RunKeepsLogged(claim: Claim, w: World, run: seq<Event>)
    requires Logged(w) && Admits(claim, w, run)
    ensures Logged(Exec(claim, w, run))
    decreases |run|
  {
    hide Apply, Enabled, Logged;
    if run != [] {
      StepKeepsLogged(claim, w, run[0]);
      RunKeepsLogged(claim, Apply(claim, w, run[0]), run[1..]);
    }
  }

  // An answer that hands back a value already presented, or no value at all, lets the
  // session's token be presented again, whatever lifetime it grants.
  lemma UnrotatedTokenIsResent(claim: Claim, w: World, a: ActorId, grant: Grant) returns (run: seq<Event>)
    requires Inv(claim, w) && Logged(w) && Enabled(w, Receive(a, Some(grant)))
    requires w.actors[a].key in w.rows
    requires !Rotates(w, Receive(a, Some(grant)), w.actors[a].stage.s.generation)
    ensures var answered := Apply(claim, w, Receive(a, Some(grant)));
            && Admits(claim, answered, run) && Silent(run)
            && !SentOnce(Exec(claim, answered, run).sent, w.actors[a].stage.s.generation)
  {
    var s, k, answered := w.actors[a].stage.s, w.actors[a].key, Apply(claim, w, Receive(a, Some(grant)));
    StepKeepsInv(claim, w, Receive(a, Some(grant)));
    run := StoreAndRelease(claim, answered, a);
    var stored := Exec(claim, answered, run);
    var b := UnusedActor(stored.actors);
    run := PresentToken(claim, answered, run, k, b, grant.expires);
    var again := Send(s.generation, if grant.refresh.Some? then grant.refresh.value else s.refresh);
    assert again in w.sent;
    var i :| 0 <= i < |w.sent| && w.sent[i] == again;
    var sent := Exec(claim, answered, run).sent;
    assert sent == w.sent + [again];
    assert sent[i] == sent[|w.sent|] == again;
  }

  lemma {:induction false} ExecJoin(claim: Claim, w: World, run: seq<Event>, rest: seq<Event>)
    requires Admits(claim, w, run) && Admits(claim, Exec(claim, w, run), rest)
    ensures Admits(claim, w, run + rest)
    ensures Exec(claim, w, run + rest) == Exec(claim, Exec(claim, w, run), rest)
    decreases |run|
  {
    hide Apply, Enabled;
    if run == [] {
      assert run + rest == rest;
    } else {
      assert (run + rest)[0] == run[0] && (run + rest)[1..] == run[1..] + rest;
      ExecJoin(claim, Apply(claim, w, run[0]), run[1..], rest);
    }
  }

  // One stored session, two requests and an unrotating answer in between.
  lemma ResendIsReachable(claim: Claim) returns (w: World, run: seq<Event>, g: nat)
    ensures Initial(claim, w) && Admits(claim, w, run) && !SentOnce(Exec(claim, w, run).sent, g)
  {
    var k, grant := Key("registration", "default"), Grant("access", 0, None);
    var row := NewSession(claim, "refresh", None, None, 0, 0);
    w, g := World(map[k := row], map[], map[], [k], []), 0;
    assert Initial(claim, w);
    run := PresentToken(claim, w, [], k, 0, 0);
    var asked := Exec(claim, w, run);
    RunKeepsInv(claim, w, run);
    RunKeepsLogged(claim, w, run);
    var answer := Receive(0, Some(grant));
    assert asked.actors[0] == Actor(Proxy, k, Sent(row)) && k in asked.rows;
    assert Enabled(asked, answer) && !Rotates(asked, answer, g);
    hide Inv, Initial, Logged;
    var rest := UnrotatedTokenIsResent(claim, asked, 0, grant);
    ExecAppend(claim, w, run, answer);
    run := run + [answer];
    ExecJoin(claim, w, run, rest);
    run := run + rest;
  }

  // ---- An undisturbed refresh ----------------------------------------------

  // An actor that has read a row to refresh, with the lock and nobody in between.
  ghost predicate Poised(w: World, a: ActorId, role: Role, k: Key, s: Session) {
    && At(w, a) && w.actors[a] == Actor(role, k, Refreshing(s))
    && k in w.rows && w.rows[k] == s
  }

  // The row after a granted refresh.
  ghost predicate Granted(claim: Claim, s: Session, grant: Grant, now: int, s': Session) {
    && s'.access == Some(grant.access) && s'.expires == Some(grant.expires) && s'.account == claim(grant.access)
    && s'.refresh == (if grant.refresh.Some? then grant.refresh.value else s.refresh)
    && !s'.degraded && s'.updatedAt == now && s'.createdAt == s.createdAt && s'.generation == s.generation
  }

  // With a grant, the row takes it and the actor reports it. Without one, a bootstrap's row
  // is gone and any other row degraded. The lock is free again and no other row changed.
  ghost predicate Settles(claim: Claim, w: World, a: ActorId, role: Role, k: Key, s: Session, answer: Option<Grant>,
                          now: int, w': World)
  {
    && At(w', a) && w'.actors == w.actors[a := w'.actors[a]] && w'.actors[a].stage.Done?
    && w'.locks == w.locks - {LockId(k)}
    && w'.sent == w.sent + [Send(s.generation, s.refresh)]
    && var out := w'.actors[a].stage.out;
       match answer {
         case Some(grant) =>
           && k in w'.rows && w'.rows == w.rows[k := w'.rows[k]] && Granted(claim, s, grant, now, w'.rows[k])
           && out == if role.Proxy? then Token(Some(grant.access), claim(grant.access), Some(grant.expires),
                                               s.generation, None)
                     else Persisted
         case None =>
           if role.Bootstrap? then out == RolledBack && w'.rows == w.rows - {k}
           else out == RefreshFailed && w'.rows == w.rows[k := s.(degraded := true, updatedAt := now)]
       }
  }

  lemma GrantArrives(claim: Claim, w: World, a: ActorId, s: Session, grant: Grant) returns (w': World)
    requires At(w, a) && w.actors[a].stage == Refreshing(s)
    ensures var e, f := Transmit(a), Receive(a, Some(grant));
            && Enabled(w, e) && Enabled(Apply(claim, w, e), f) && w' == Apply(claim, Apply(claim, w, e), f)
    ensures w' == Move(w, a, Answered(s, grant)).(sent := w.sent + [Send(s.generation, s.refresh)])
  {
    w' := Move(w, a, Answered(s, grant)).(sent := w.sent + [Send(s.generation, s.refresh)]);
  }

  lemma GrantStored(claim: Claim, w: World, a: ActorId, s: Session, grant: Grant, now: int) returns (w': World)
    requires At(w, a) && w.actors[a].stage == Answered(s, grant)
    requires w.actors[a].key in w.rows && w.rows[w.actors[a].key] == s
    ensures var e, f, k := Update(a, now), ReadBack(a), w.actors[a].key;
            && Enabled(w, e) && Enabled(Apply(claim, w, e), f) && w' == Apply(claim, Apply(claim, w, e), f)
            && w' == Move(w, a, w'.actors[a].stage).(rows := w.rows[k := Refreshed(claim, s, grant, now)])
            && w'.actors[a].stage ==
               Leaving(if w.actors[a].role.Proxy? then TokenOf(Refreshed(claim, s, grant, now), None) else Persisted)
  {
    hide Refreshed, TokenOf;
    w' := Apply(claim, Apply(claim, w, Update(a, now)), ReadBack(a));
  }

  lemma UndisturbedGrant(claim: Claim, w: World, a: ActorId, role: Role, k: Key, s: Session, grant: Grant, now: int)
    returns (run: seq<Event>)
    requires Poised(w, a, role, k, s)
    ensures Admits(claim, w, run) && Settles(claim, w, a, role, k, s, Some(grant), now, Exec(claim, w, run))
  {
    var answered := GrantArrives(claim, w, a, s, grant);
    var stored := GrantStored(claim, answered, a, s, grant, now);
    assert Enabled(stored, Release(a));
    var done := Apply(claim, stored, Release(a));
    assert Settles(claim, w, a, role, k, s, Some(grant), now, done) by { hide LockId; }
    hide Apply, Enabled, Settles, LockId;
    ExecAppend(claim, w, [], Transmit(a));
    run := [] + [Transmit(a)];
    ExecAppend(claim, w, run, Receive(a, Some(grant)));
    run := run + [Receive(a, Some(grant))];
    ExecAppend(claim, w, run, Update(a, now));
    run := run + [Update(a, now)];
    ExecAppend(claim, w, run, ReadBack(a));
    run := run + [ReadBack(a)];
    ExecAppend(claim, w, run, Release(a));
    run := run + [Release(a)];
  }

  // From `Failing`, the row is degraded or rolled back and the lock released.
  lemma FailureEnds(claim: Claim, w: World, a: ActorId, s: Session, now: int) returns (w': World)
    requires At(w, a) && w.actors[a].stage == Failing(s)
    requires w.actors[a].key in w.rows && w.rows[w.actors[a].key] == s
    ensures var e, f, k := Fail(a, now), Release(a), w.actors[a].key;
            && Enabled(w, e) && Enabled(Apply(claim, w, e), f) && w' == Apply(claim, Apply(claim, w, e), f)
            && w' == Move(w, a, w'.actors[a].stage).(locks := w.locks - {LockId(k)}, rows := w'.rows)
            && if w.actors[a].role.Bootstrap? then
                 w'.actors[a].stage == Done(RolledBack) && w'.rows == w.rows - {k}
               else
                 && w'.actors[a].stage == Done(RefreshFailed)
                 && w'.rows == w.rows[k := s.(degraded := true, updatedAt := now)]
  {
    hide LockId;
    w' := Apply(claim, Apply(claim, w, Fail(a, now)), Release(a));
  }

  lemma UndisturbedFailure(claim: Claim, w: World, a: ActorId, role: Role, k: Key, s: Session, now: int)
    returns (run: seq<Event>)
    requires Poised(w, a, role, k, s)
    ensures Admits(claim, w, run) && Settles(claim, w, a, role, k, s, None, now, Exec(claim, w, run))
  {
    var sent := Move(w, a, Sent(s)).(sent := w.sent + [Send(s.generation, s.refresh)]);
    var failing := Move(sent, a, Failing(s));
    assert Enabled(w, Transmit(a)) && Apply(claim, w, Transmit(a)) == sent;
    assert Enabled(sent, Receive(a, None)) && Apply(claim, sent, Receive(a, None)) == failing;
    var done := FailureEnds(claim, failing, a, s, now);
    hide Apply, Enabled, LockId;
    assert Settles(claim, w, a, role, k, s, None, now, done);
    hide Settles;
    ExecAppend(claim, w, [], Transmit(a));
    run := [] + [Transmit(a)];
    ExecAppend(claim, w, run, Receive(a, None));
    run := run + [Receive(a, None)];
    ExecAppend(claim, w, run, Fail(a, now));
    run := run + [Fail(a, now)];
    ExecAppend(claim, w, run, Release(a));
    run := run + [Release(a)];
  }

  // A registration that is gone fails the refresh without presenting anything.
  lemma UndisturbedAbort(claim: Claim, w: World, a: ActorId, role: Role, k: Key, s: Session, now: int)
    returns (run: seq<Event>)
    requires Poised(w, a, role, k, s)
    ensures Admits(claim, w, run) && Exec(claim, w, run).sent == w.sent
    ensures Settles(claim, w, a, role, k, s, None, now,
                    Exec(claim, w, run).(sent := w.sent + [Send(s.generation, s.refresh)]))
  {
    var failing := Move(w, a, Failing(s));
    assert Enabled(w, Abort(a)) && Apply(claim, w, Abort(a)) == failing;
    var done := FailureEnds(claim, failing, a, s, now);
    hide Apply, Enabled, LockId;
    ExecAppend(claim, w, [], Abort(a));
    run := [] + [Abort(a)];
    ExecAppend(claim, w, run, Fail(a, now));
    run := run + [Fail(a, now)];
    ExecAppend(claim, w, run, Release(a));
    run := run + [Release(a)];
  }

  // A revoke, which takes no lock, deletes exactly its row.
  lemma RevokeDeletesRow(claim: Claim, w: World, k: Key)
    ensures Enabled(w, Revoke(k))
    ensures var w' := Apply(claim, w, Revoke(k));
            k !in w'.rows && w'.rows == w.rows - {k} && w' == w.(rows := w'.rows)
  {
  }

  // ---- A revoked session presents nothing more -----------------------------

  // Generation `g` is in no row, and nobody is about to present its token.
  ghost predicate Retired(w: World, g: nat) {
    && g < |w.sessions|
    && (forall k <- w.rows :: w.rows[k].generation != g)
    && (forall a <- w.actors :: w.actors[a].stage.Refreshing? ==> w.actors[a].stage.s.generation != g)
  }

  lemma StepKeepsRetired(claim: Claim, w: World, e: Event, g: nat)
    requires Enabled(w, e) && Retired(w, g)
    ensures Retired(Apply(claim, w, e), g)
    ensures forall s <- Presented(w, e) :: s.generation != g
  {
    hide LockId, NeedsRefresh, TokenOf;
  }

  lemma {:induction false} RetiredPresentsNothing(claim: Claim, w: World, run: seq<Event>, g: nat)
    requires Admits(claim, w, run) && Retired(w, g) && SentOnce(w.sent, g)
    ensures SentOnce(Exec(claim, w, run).sent, g)
    decreases |run|
  {
    hide Apply, Enabled, Retired;
    if run != [] {
      StepKeepsRetired(claim, w, run[0], g);
      StepLog(claim, w, run[0]);
      RetiredPresentsNothing(claim, Apply(claim, w, run[0]), run[1..], g);
    }
  }

  // An answer whose row was revoked meanwhile ends its session.
  lemma AnswerWithoutRowRetires(claim: Claim, w: World, a: ActorId, grant: Grant)
    requires Inv(claim, w) && Enabled(w, Receive(a, Some(grant))) && w.actors[a].key !in w.rows
    ensures Retired(Apply(claim, w, Receive(a, Some(grant))), w.actors[a].stage.s.generation)
  {
    var g := w.actors[a].stage.s.generation;
    assert ActorOk(claim, w, a);
    forall k <- w.rows
      ensures w.rows[k].generation != g
    {
      assert Owned(w, k, w.rows[k]);
    }
    forall b <- w.actors | w.actors[b].stage.Refreshing? && b != a
      ensures w.actors[b].stage.s.generation != g
    {
      if w.actors[b].stage.s.generation == g {
        OneActorPerGeneration(claim, w, a, b);
      }
    }
  }

  // ---- Exactly when tokens are presented once ------------------------------

  ghost predicate StaysOnce(claim: Claim, w: World, g: nat) {
    forall run :: Admits(claim, w, run) && AlwaysRotates(claim, w, run, g) ==> SentOnce(Exec(claim, w, run).sent, g)
  }

  // Take any state reached while the provider rotated, and a successful answer to come.
  // No later rotating run presents a token of the session twice if and only if this answer
  // rotates too, or the session was revoked while it was under way.
  lemma SentOnceIffAnswerRotates(claim: Claim, w0: World, run: seq<Event>, a: ActorId, grant: Grant)
    requires Initial(claim, w0) && Admits(claim, w0, run) && Enabled(Exec(claim, w0, run), Receive(a, Some(grant)))
    requires AlwaysRotates(claim, w0, run, Exec(claim, w0, run).actors[a].stage.s.generation)
    ensures var w, e := Exec(claim, w0, run), Receive(a, Some(grant));
            var g := w.actors[a].stage.s.generation;
            StaysOnce(claim, Apply(claim, w, e), g) <==> Rotates(w, e, g) || w.actors[a].key !in w.rows
  {
    var w, e := Exec(claim, w0, run), Receive(a, Some(grant));
    var g := w.actors[a].stage.s.generation;
    RunKeepsInv(claim, w0, run);
    RunKeepsFresh(claim, w0, run, g);
    RunKeepsLogged(claim, w0, run);
    var next := Apply(claim, w, e);
    StepLog(claim, w, e);
    if Rotates(w, e, g) {
      StepKeepsInv(claim, w, e);
      StepKeepsFresh(claim, w, e, g);
      hide Apply, Inv, FreshInv;
      forall rest | Admits(claim, next, rest) && AlwaysRotates(claim, next, rest, g)
        ensures SentOnce(Exec(claim, next, rest).sent, g)
      {
        RunKeepsOnce(claim, next, rest, g);
      }
    } else if w.actors[a].key !in w.rows {
      AnswerWithoutRowRetires(claim, w, a, grant);
      hide Apply, Inv;
      forall rest | Admits(claim, next, rest)
        ensures SentOnce(Exec(claim, next, rest).sent, g)
      {
        RetiredPresentsNothing(claim, next, rest, g);
      }
    } else {
      var rest := UnrotatedTokenIsResent(claim, w, a, grant);
      SilenceRotates(claim, next, rest, g);
    }
  }

  lemma RunKeepsOnce(claim: Claim, w: World, run: seq<Event>, g: nat)
    requires Inv(claim, w) && Admits(claim, w, run) && FreshInv(w, g) && AlwaysRotates(claim, w, run, g)
    ensures SentOnce(Exec(claim, w, run).sent, g)
  {
    RunKeepsFresh(claim, w, run, g);
  }
}
