/**
 Secret rotation as a state machine: a rotation reads the current hash, verifies
 the presented secret and then swaps the hash with a compare-and-set. Any number
 of rotations run interleaved with agent creation, policy changes and revocation.
 */
module Rotation {
  import opened Prelude
  import opened AgentTables

  // ---- Authentication ------------------------------------------------------

  datatype AuthResult =
    | Identity(id: nat, publicId: PublicId, name: string, allowlist: Allowlist, denylist: Allowlist)
    | InvalidCredential
    | Expired

  // `BearerAuthenticator::resolve` on the row its SELECT returned.
  function Authenticate(agents: Agents, pid: PublicId, secret: string, now: int): AuthResult {
    if !Active(agents, pid) then InvalidCredential
    else if agents[pid].expires.Some? && agents[pid].expires.value < now then Expired
    else if !Verify(agents[pid].hash, secret) then InvalidCredential
    else Identity(agents[pid].id, pid, agents[pid].name, agents[pid].allowlist, agents[pid].denylist)
  }

  // ---- State and steps -----------------------------------------------------

  type CallId = nat

  datatype Outcome = Rotated(next: Hash) | Refused | RotationInProgress

  datatype Stage = Begun | HashRead(current: Hash) | Ended(out: Outcome)

  datatype Call = Call(pid: PublicId, secret: string, stage: Stage)

  // History: `issued[pid]` lists every hash stored for an agent, oldest first, and
  // `spentBy[pid][i]` is the rotation that replaced `issued[pid][i]`.
  datatype World = World(agents: Agents, calls: map<CallId, Call>,
                         issued: map<PublicId, seq<Hash>>, spentBy: map<PublicId, seq<CallId>>)

  datatype Event =
    | Create(pid: PublicId, row: Agent)
    | Revoke(pid: PublicId, now: int)
    | UpdatePolicy(pid: PublicId, change: PolicyChange)
    | Begin(c: CallId, pid: PublicId, secret: string)
    | Read(c: CallId)
    | Swap(c: CallId, next: Hash)

  predicate CallAt(w: World, c: CallId) {
    c in w.calls
  }

  predicate Known(w: World, pid: PublicId) {
    pid in w.agents && pid in w.issued && pid in w.spentBy
  }

  predicate WasIssued(issued: seq<Hash>, secret: string) {
    exists h <- issued :: h.secret == secret
  }

  // A generated secret was never issued to the agent before.
  predicate Enabled(w: World, e: Event) {
    match e
    case Create(pid, row) => pid !in w.agents && row.revokedAt.None?
    case Revoke(_, _) => true
    case UpdatePolicy(_, _) => true
    case Begin(c, _, _) => c !in w.calls
    case Read(c) => CallAt(w, c) && w.calls[c].stage.Begun?
    case Swap(c, next) =>
      && CallAt(w, c) && w.calls[c].stage.HashRead? && Known(w, w.calls[c].pid)
      && !WasIssued(w.issued[w.calls[c].pid], next.secret)
  }

  function Move(w: World, c: CallId, stage: Stage): World
    requires CallAt(w, c)
  {
    w.(calls := w.calls[c := w.calls[c].(stage := stage)])
  }

  function Apply(w: World, e: Event): World
    requires Enabled(w, e)
  {
    match e
    case Create(pid, row) =>
      w.(agents := w.agents[pid := row], issued := w.issued[pid := [row.hash]], spentBy := w.spentBy[pid := []])
    case Revoke(pid, now) => w.(agents := RevokeAgent(w.agents, pid, now))
    case UpdatePolicy(pid, change) => w.(agents := SetPolicy(w.agents, pid, change))
    case Begin(c, pid, secret) => w.(calls := w.calls[c := Call(pid, secret, Begun)])
    case Read(c) =>
      var Call(pid, secret, _) := w.calls[c];
      if Active(w.agents, pid) && Verify(w.agents[pid].hash, secret) then Move(w, c, HashRead(w.agents[pid].hash))
      else Move(w, c, Ended(Refused))
    case Swap(c, next) =>
      var Call(pid, _, HashRead(current)) := w.calls[c];
      if CasApplies(w.agents, pid, current) then
        Move(w, c, Ended(Rotated(next)))
          .(agents := CasSecret(w.agents, pid, current, next),
            issued := w.issued[pid := w.issued[pid] + [next]],
            spentBy := w.spentBy[pid := w.spentBy[pid] + [c]])
      else Move(w, c, Ended(RotationInProgress))
  }

  predicate Admits(w: World, run: seq<Event>)
    decreases |run|
  {
    run == [] || (Enabled(w, run[0]) && Admits(Apply(w, run[0]), run[1..]))
  }

  function Exec(w: World, run: seq<Event>): World
    requires Admits(w, run)
    decreases |run|
  {
    if run == [] then w else Exec(Apply(w, run[0]), run[1..])
  }

  ghost predicate Initial(w: World) {
    w == World(map[], map[], map[], map[])
  }

  // ---- Invariant -----------------------------------------------------------

  // Rotation `c` presented the `i`-th secret of `pid` and issued the next one.
  ghost predicate Link(w: World, pid: PublicId, i: nat, c: CallId)
    requires Known(w, pid)
  {
    && i + 1 < |w.issued[pid]| && i < |w.spentBy[pid]| && w.spentBy[pid][i] == c
    && CallAt(w, c) && w.calls[c].pid == pid
    && w.calls[c].secret == w.issued[pid][i].secret
    && w.calls[c].stage == Ended(Rotated(w.issued[pid][i + 1]))
  }

  ghost predicate AgentOk(w: World, pid: PublicId)
    requires pid in w.agents
  {
    && Known(w, pid)
    && |w.issued[pid]| == |w.spentBy[pid]| + 1
    && w.agents[pid].hash == w.issued[pid][|w.issued[pid]| - 1]
    && (forall i, j :: 0 <= i < j < |w.issued[pid]| ==> w.issued[pid][i].secret != w.issued[pid][j].secret)
    && (forall i :: 0 <= i < |w.spentBy[pid]| ==> Link(w, pid, i, w.spentBy[pid][i]))
  }

  ghost predicate CallOk(w: World, c: CallId)
    requires CallAt(w, c)
  {
    var Call(pid, secret, stage) := w.calls[c];
    && (stage.HashRead? ==> Known(w, pid) && stage.current in w.issued[pid] && stage.current.secret == secret)
    && (stage.Ended? && stage.out.Rotated? ==> Known(w, pid) && exists i :: Link(w, pid, i, c))
  }

  ghost predicate Inv(w: World) {
    && (forall pid <- w.agents :: AgentOk(w, pid))
    && (forall c <- w.calls :: CallOk(w, c))
  }

  // Chains only grow and a revoked agent stays revoked.
  ghost predicate Extends(w: World, w': World) {
    forall pid <- w.agents :: Known(w, pid) ==>
      && Known(w', pid)
      && w.issued[pid] <= w'.issued[pid]
      && w.spentBy[pid] <= w'.spentBy[pid]
      && (w.agents[pid].revokedAt.Some? ==> w'.agents[pid].revokedAt.Some?)
  }

  lemma StepExtends(w: World, e: Event)
    requires Enabled(w, e)
    ensures Extends(w, Apply(w, e))
  {
  }

  lemma LinkKept(w: World, e: Event, pid: PublicId, i: nat, c: CallId)
    requires Enabled(w, e) && Known(w, pid) && Link(w, pid, i, c)
    ensures Known(Apply(w, e), pid) && Link(Apply(w, e), pid, i, c)
  {
    StepExtends(w, e);
    EndedCallUnmoved(w, e, c);
    hide Apply, Enabled;
  }

  lemma EndedCallUnmoved(w: World, e: Event, c: CallId)
    requires Enabled(w, e) && CallAt(w, c) && w.calls[c].stage.Ended?
    ensures CallAt(Apply(w, e), c) && Apply(w, e).calls[c] == w.calls[c]
  {
    hide RevokeAgent, SetPolicy, CasSecret, Verify, WasIssued;
  }

  lemma StepKeepsAgent(w: World, e: Event, pid: PublicId)
    requires Inv(w) && Enabled(w, e) && pid in Apply(w, e).agents
    ensures AgentOk(Apply(w, e), pid)
  {
    if pid in w.agents {
      assert AgentOk(w, pid);
      if e.Swap? {
        assert CallOk(w, e.c);
      }
      KnownAgentKept(w, e, pid);
    }
  }

  lemma KnownAgentKept(w: World, e: Event, pid: PublicId)
    requires Enabled(w, e) && pid in w.agents && AgentOk(w, pid)
    requires e.Swap? ==> CallOk(w, e.c)
    ensures pid in Apply(w, e).agents && AgentOk(Apply(w, e), pid)
  {
    var w' := Apply(w, e);
    forall i | 0 <= i < |w.spentBy[pid]|
      ensures Known(w', pid) && Link(w', pid, i, w.spentBy[pid][i])
    {
      LinkKept(w, e, pid, i, w.spentBy[pid][i]);
    }
  }

  lemma StepKeepsCall(w: World, e: Event, c: CallId)
    requires Inv(w) && Enabled(w, e) && CallAt(Apply(w, e), c)
    ensures CallOk(Apply(w, e), c)
  {
    if CallAt(w, c) {
      assert CallOk(w, c);
      if w.calls[c].pid in w.agents {
        assert AgentOk(w, w.calls[c].pid);
      }
      KnownCallKept(w, e, c);
    }
  }

  lemma KnownCallKept(w: World, e: Event, c: CallId)
    requires Enabled(w, e) && CallAt(w, c) && CallOk(w, c)
    requires w.calls[c].pid in w.agents ==> AgentOk(w, w.calls[c].pid)
    ensures CallAt(Apply(w, e), c) && CallOk(Apply(w, e), c)
  {
    if (e.Read? || e.Swap?) && e.c == c {
      OwnCallKept(w, e);
    } else {
      OtherCallKept(w, e, c);
    }
  }

  lemma OwnCallKept(w: World, e: Event)
    requires Enabled(w, e) && (e.Read? || e.Swap?) && CallOk(w, e.c)
    requires w.calls[e.c].pid in w.agents ==> AgentOk(w, w.calls[e.c].pid)
    ensures CallOk(Apply(w, e), e.c)
  {
    var w', pid := Apply(w, e), w.calls[e.c].pid;
    if e.Swap? && w'.calls[e.c].stage.out.Rotated? {
      assert Link(w', pid, |w.spentBy[pid]|, e.c);
    }
  }

  lemma OtherCallKept(w: World, e: Event, c: CallId)
    requires Enabled(w, e) && CallAt(w, c) && CallOk(w, c) && !((e.Read? || e.Swap?) && e.c == c)
    ensures CallAt(Apply(w, e), c) && CallOk(Apply(w, e), c)
  {
    StepExtends(w, e);
    assert Apply(w, e).calls[c] == w.calls[c];
    if w.calls[c].stage.Ended? && w.calls[c].stage.out.Rotated? {
      var i :| Link(w, w.calls[c].pid, i, c);
      LinkKept(w, e, w.calls[c].pid, i, c);
    }
    hide Apply, Link;
  }

  lemma StepKeepsInv(w: World, e: Event)
    requires Inv(w) && Enabled(w, e)
    ensures Inv(Apply(w, e))
  {
    var w' := Apply(w, e);
    forall pid <- w'.agents ensures AgentOk(w', pid) { StepKeepsAgent(w, e, pid); }
    forall c <- w'.calls ensures CallOk(w', c) { StepKeepsCall(w, e, c); }
  }

  lemma {:induction false} RunKeepsInv(w: World, run: seq<Event>)
    requires Inv(w) && Admits(w, run)
    ensures Inv(Exec(w, run)) && Extends(w, Exec(w, run))
    decreases |run|
  {
    if run != [] {
      StepKeepsInv(w, run[0]);
      StepExtends(w, run[0]);
      RunKeepsInv(Apply(w, run[0]), run[1..]);
    }
  }

  ghost predicate Succeeded(w: World, c: CallId) {
    CallAt(w, c) && w.calls[c].stage.Ended? && w.calls[c].stage.out.Rotated?
  }

  // ---- Results -------------------------------------------------------------

  // The successful rotations of an agent form one chain: each presented the secret
  // the one before it had issued, and no secret is spent by two of them.
  lemma RotationsFormChain(w: World, run: seq<Event>, c: CallId)
    requires Initial(w) && Admits(w, run)
    requires Succeeded(Exec(w, run), c)
    ensures var w' := Exec(w, run);
            && Known(w', w'.calls[c].pid)
            && exists i :: Link(w', w'.calls[c].pid, i, c)
    ensures var w' := Exec(w, run);
            forall d <- w'.calls | Succeeded(w', d) ::
              w'.calls[d].pid == w'.calls[c].pid && w'.calls[d].secret == w'.calls[c].secret ==> d == c
  {
    RunKeepsInv(w, run);
    var w' := Exec(w, run);
    var pid := w'.calls[c].pid;
    assert CallOk(w', c) && AgentOk(w', pid);
    var i :| Link(w', pid, i, c);
    forall d <- w'.calls | Succeeded(w', d) && w'.calls[d].pid == pid && w'.calls[d].secret == w'.calls[c].secret
      ensures d == c
    {
      assert CallOk(w', d);
      var j :| Link(w', pid, j, d);
    }
  }

  // In every reachable state the one secret that authenticates an agent is the
  // last one issued, and only while the agent is neither revoked nor expired. It then
  // authenticates as that agent, with the lists its row has.
  lemma OnlyLatestSecretAuthenticates(w: World, run: seq<Event>, pid: PublicId, secret: string, now: int)
    requires Initial(w) && Admits(w, run)
    ensures var w' := Exec(w, run);
            Authenticate(w'.agents, pid, secret, now).Identity? <==>
              && Active(w'.agents, pid) && pid in w'.issued && w'.issued[pid] != []
              && w'.issued[pid][|w'.issued[pid]| - 1].secret == secret
              && (w'.agents[pid].expires.Some? ==> w'.agents[pid].expires.value >= now)
    ensures var w' := Exec(w, run);
            match Authenticate(w'.agents, pid, secret, now) {
              case Identity(id, publicId, name, allowlist, denylist) =>
                && publicId == pid && id == w'.agents[pid].id && name == w'.agents[pid].name
                && allowlist == w'.agents[pid].allowlist && denylist == w'.agents[pid].denylist
              case Expired =>
                Active(w'.agents, pid) && w'.agents[pid].expires.Some? && w'.agents[pid].expires.value < now
              case InvalidCredential =>
                Active(w'.agents, pid) ==>
                  && pid in w'.issued && w'.issued[pid] != []
                  && w'.issued[pid][|w'.issued[pid]| - 1].secret != secret
            }
  {
    RunKeepsInv(w, run);
    if pid in Exec(w, run).agents {
      assert AgentOk(Exec(w, run), pid);
    }
  }

  // A rotation passes its read exactly with the current secret of an active agent.
  lemma ReadAcceptsIff(w: World, c: CallId)
    requires Enabled(w, Read(c))
    ensures var pid, stage := w.calls[c].pid, Apply(w, Read(c)).calls[c].stage;
            if pid in w.agents && w.agents[pid].revokedAt.None? && w.agents[pid].hash.secret == w.calls[c].secret then
              stage == HashRead(w.agents[pid].hash)
            else
              stage == Ended(Refused)
  {
  }

  lemma {:induction false} ExecAppend(w: World, run: seq<Event>, e: Event)
    requires Admits(w, run) && Enabled(Exec(w, run), e)
    ensures Admits(w, run + [e]) && Exec(w, run + [e]) == Apply(Exec(w, run), e)
    decreases |run|
  {
    hide Apply, Enabled;
    if run == [] {
      assert run + [e] == [e] && [e][1..] == [];
    } else {
      assert (run + [e])[1..] == run[1..] + [e];
      ExecAppend(Apply(w, run[0]), run[1..], e);
    }
  }

  // Undisturbed, the current secret of an active agent is exchanged for a new one: the new
  // one authenticates as the same agent with the same lists, and the old one no more.
  lemma UndisturbedRotation(w: World, c: CallId, pid: PublicId, secret: string, next: Hash, now: int)
    returns (run: seq<Event>)
    requires c !in w.calls && Known(w, pid) && !WasIssued(w.issued[pid], next.secret) && AgentOk(w, pid)
    requires Authenticate(w.agents, pid, secret, now).Identity?
    ensures Admits(w, run) && CallAt(Exec(w, run), c)
    ensures var w' := Exec(w, run);
            && w'.calls[c].stage == Ended(Rotated(next))
            && Authenticate(w'.agents, pid, next.secret, now) == Authenticate(w.agents, pid, secret, now)
            && Authenticate(w'.agents, pid, secret, now) == InvalidCredential
            && forall p <- w.agents :: p != pid ==> p in w'.agents && w'.agents[p] == w.agents[p]
  {
    assert w.agents[pid].hash in w.issued[pid];
    ExecAppend(w, [], Begin(c, pid, secret));
    run := [] + [Begin(c, pid, secret)];
    ExecAppend(w, run, Read(c));
    run := run + [Read(c)];
    ExecAppend(w, run, Swap(c, next));
    run := run + [Swap(c, next)];
  }

  // A created agent authenticates with its secret and its own lists until it expires; a
  // revoked one with none.
  lemma CreateAndRevokeTakeEffect(w: World, pid: PublicId, row: Agent, secret: string, now: int, at: int)
    requires Enabled(w, Create(pid, row))
    ensures var created := Apply(w, Create(pid, row)).agents;
            Authenticate(created, pid, secret, now) ==
              if row.expires.Some? && row.expires.value < now then Expired
              else if secret == row.hash.secret then Identity(row.id, pid, row.name, row.allowlist, row.denylist)
              else InvalidCredential
    ensures Authenticate(Apply(w, Revoke(pid, at)).agents, pid, secret, now) == InvalidCredential
    ensures forall p <- w.agents ::
              Authenticate(Apply(w, Revoke(p, at)).agents, p, secret, now) == InvalidCredential
  {
  }

  // A policy change is what the agent's next authentication carries, and it neither lets
  // in nor shuts out anyone but by the expiry given.
  lemma PolicyTakesEffect(w: World, pid: PublicId, change: PolicyChange, secret: string, now: int)
    ensures var before := Authenticate(w.agents, pid, secret, now);
            var after := Authenticate(Apply(w, UpdatePolicy(pid, change)).agents, pid, secret, now);
            && (before.Identity? && after.Identity? ==>
                  && after.id == before.id && after.name == before.name
                  && after.allowlist == (if change.allowlist.Some? then change.allowlist.value else before.allowlist)
                  && after.denylist == (if change.denylist.Some? then change.denylist.value else before.denylist))
            && (change.expires.None? ==> (after.Identity? <==> before.Identity?))
            && (before.Identity? && change.expires.Some? ==>
                  (after.Identity? <==> change.expires.value.None? || now <= change.expires.value.value))
  {
  }

  // Revocation is final: nothing authenticates and no rotation succeeds later.
  lemma RevocationIsFinal(w: World, run: seq<Event>, pid: PublicId, secret: string, now: int)
    requires Inv(w) && Admits(w, run) && pid in w.agents && w.agents[pid].revokedAt.Some?
    ensures !Authenticate(Exec(w, run).agents, pid, secret, now).Identity?
    ensures pid in w.issued && pid in Exec(w, run).issued && Exec(w, run).issued[pid] == w.issued[pid]
  {
    assert AgentOk(w, pid);
    RevokedChainFrozen(w, run, pid);
  }

  lemma {:induction false} RevokedChainFrozen(w: World, run: seq<Event>, pid: PublicId)
    requires Admits(w, run) && Known(w, pid) && w.agents[pid].revokedAt.Some?
    ensures var w' := Exec(w, run);
            Known(w', pid) && w'.agents[pid].revokedAt.Some? && w'.issued[pid] == w.issued[pid]
    decreases |run|
  {
    if run != [] {
      RevokedChainFrozen(Apply(w, run[0]), run[1..], pid);
    }
  }

  // No spurious conflict: a rotation that read the current hash at `w` is turned
  // away exactly when the agent was revoked or another rotation won meanwhile.
  lemma ConflictMeansProgress(w: World, run: seq<Event>, c: CallId, next: Hash)
    requires Inv(w) && Admits(w, run) && CallAt(w, c)
    requires var pid := w.calls[c].pid;
             pid in w.agents && w.calls[c].stage == HashRead(w.agents[pid].hash)
    requires var w' := Exec(w, run);
             CallAt(w', c) && w'.calls[c] == w.calls[c] && Enabled(w', Swap(c, next))
    ensures var w', pid := Exec(w, run), w.calls[c].pid;
            && pid in w.issued && pid in w'.issued
            && (Apply(w', Swap(c, next)).calls[c].stage == Ended(RotationInProgress) <==>
                  !Active(w'.agents, pid) || |w'.issued[pid]| > |w.issued[pid]|)
  {
    RunKeepsInv(w, run);
    var w', pid := Exec(w, run), w.calls[c].pid;
    assert AgentOk(w, pid) && AgentOk(w', pid);
    assert w'.issued[pid][|w.issued[pid]| - 1] == w.issued[pid][|w.issued[pid]| - 1];
  }
}
