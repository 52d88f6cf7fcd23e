/**
 Registration with a bootstrap token as a state machine: preview, insert, fetch,
 read, guarded mark and compensate are separate SQL statements, run by any number
 of concurrent callers next to operator revokes, operator-created agents, policy
 changes and secret rotations.
 */
module Enrollment {
  import opened Prelude
  import opened AgentTables

  // ---- State ---------------------------------------------------------------

  type CallId = nat

  datatype Result =
    | Registered(agent: PublicId, allowlist: Allowlist)
    | InvalidBootstrap
    | NameConflict
    | AgentNotFound

  datatype Stage =
    | Started
    | Previewed(scope: Scope)
    | Inserted(scope: Scope, agent: PublicId)
    | Fetched(scope: Scope, agent: PublicId, id: nat)
    | Verified(scope: Scope, agent: PublicId, id: nat)
    | Compensating(agent: PublicId)
    | Finished(result: Result)
  {
    predicate HasAgent() {
      Inserted? || Fetched? || Verified? || Compensating?
    }
  }

  datatype Call = Call(token: PublicId, secret: string, name: string, stage: Stage)

  // `via` and `amended` are history variables: the registration an agent row was inserted
  // by, and the agents an operator has since given another allowlist.
  datatype World = World(tokens: Tokens, agents: Agents, lastId: nat,
                         calls: map<CallId, Call>, via: map<PublicId, CallId>, amended: set<PublicId>)

  // ---- Steps ---------------------------------------------------------------

  datatype Event =
    | Mint(token: PublicId, hash: Hash, scope: Scope)
    | Register(c: CallId, token: PublicId, secret: string, name: string)
    | Preview(c: CallId, now: int)
    | Insert(c: CallId, pid: PublicId, hash: Hash, metadata: Option<string>)
    | Fetch(c: CallId)
    | Read(c: CallId, now: int)
    | Mark(c: CallId, now: int)
    | Compensate(c: CallId, now: int)
    | RevokeBootstrap(token: PublicId, now: int)
    | RevokeByOperator(pid: PublicId, now: int)
    | CreateByOperator(pid: PublicId, name: string, hash: Hash, allowlist: Allowlist, denylist: Allowlist,
                       metadata: Option<string>)
    | Rotate(pid: PublicId, hash: Hash)
    | UpdatePolicy(pid: PublicId, change: PolicyChange)

  predicate CallAt(w: World, c: CallId) {
    c in w.calls
  }

  // Generated public ids are fresh.
  predicate Enabled(w: World, e: Event) {
    match e
    case Mint(token, _, _) => token !in w.tokens
    case Register(c, _, _, _) => c !in w.calls
    case Preview(c, _) => CallAt(w, c) && w.calls[c].stage.Started?
    case Insert(c, pid, _, _) => CallAt(w, c) && w.calls[c].stage.Previewed? && pid !in w.agents
    case Fetch(c) => CallAt(w, c) && w.calls[c].stage.Inserted?
    case Read(c, _) => CallAt(w, c) && w.calls[c].stage.Fetched?
    case Mark(c, _) => CallAt(w, c) && w.calls[c].stage.Verified? && w.calls[c].token in w.tokens
    case Compensate(c, _) => CallAt(w, c) && w.calls[c].stage.Compensating?
    case RevokeBootstrap(_, _) => true
    case RevokeByOperator(_, _) => true
    case CreateByOperator(pid, name, _, _, _, _) => pid !in w.agents && !NameTaken(w.agents, name)
    case Rotate(pid, _) => Active(w.agents, pid)
    case UpdatePolicy(_, _) => true
  }

  function Move(w: World, c: CallId, stage: Stage): World
    requires CallAt(w, c)
  {
    w.(calls := w.calls[c := w.calls[c].(stage := stage)])
  }

  function AddAgent(w: World, pid: PublicId, name: string, hash: Hash, allowlist: Allowlist, denylist: Allowlist,
                    metadata: Option<string>): World
  {
    w.(agents := w.agents[pid := Agent(w.lastId + 1, name, hash, allowlist, denylist, metadata, None, None)],
       lastId := w.lastId + 1)
  }

  function Apply(w: World, e: Event): World
    requires Enabled(w, e)
  {
    match e
    case Mint(token, hash, scope) => w.(tokens := w.tokens[token := BootToken(hash, scope, None, None, None)])
    case Register(c, token, secret, name) => w.(calls := w.calls[c := Call(token, secret, name, Started)])
    case Preview(c, now) =>
      var t := w.calls[c].token;
      Move(w, c, if Presentable(w.tokens, t, now) then Previewed(w.tokens[t].scope) else Finished(InvalidBootstrap))
    case Insert(c, pid, hash, metadata) =>
      var Call(_, _, name, Previewed(scope)) := w.calls[c];
      if NameTaken(w.agents, name) then Move(w, c, Finished(NameConflict))
      else
        AddAgent(Move(w, c, Inserted(scope, pid)), pid, name, hash, scope.allowlist, None, metadata)
          .(via := w.via[pid := c])
    case Fetch(c) =>
      var Inserted(scope, pid) := w.calls[c].stage;
      Move(w, c, if Active(w.agents, pid) then Fetched(scope, pid, w.agents[pid].id) else Finished(AgentNotFound))
    case Read(c, now) =>
      var Call(t, secret, _, Fetched(scope, pid, id)) := w.calls[c];
      Move(w, c, if Presentable(w.tokens, t, now) && Verify(w.tokens[t].hash, secret) then Verified(scope, pid, id)
                 else Compensating(pid))
    case Mark(c, now) =>
      var Call(t, _, _, Verified(scope, pid, id)) := w.calls[c];
      if MarkApplies(w.tokens, t, w.tokens[t].scope.singleUse) then
        Move(w, c, Finished(Registered(pid, scope.allowlist)))
          .(tokens := MarkUsed(w.tokens, t, w.tokens[t].scope.singleUse, id, now))
      else Move(w, c, Compensating(pid))
    case Compensate(c, now) =>
      Move(w, c, Finished(InvalidBootstrap)).(agents := RevokeAgent(w.agents, w.calls[c].stage.agent, now))
    case RevokeBootstrap(t, now) => w.(tokens := RevokeToken(w.tokens, t, now))
    case RevokeByOperator(pid, now) => w.(agents := RevokeAgent(w.agents, pid, now))
    case CreateByOperator(pid, name, hash, allowlist, denylist, metadata) =>
      AddAgent(w, pid, name, hash, allowlist, denylist, metadata)
    case Rotate(pid, hash) => w.(agents := CasSecret(w.agents, pid, w.agents[pid].hash, hash))
    case UpdatePolicy(pid, change) =>
      w.(agents := SetPolicy(w.agents, pid, change),
         amended := if change.allowlist.Some? && pid in w.agents then w.amended + {pid} else w.amended)
  }

  predicate Admits(w: World, run: seq<Event>)
    decreases |run|
  {
    run == [] || (Enabled(w, run[0]) && Admits(Apply(w, run[0]), run[1..]))
  }

  function Exec(w: World, run: seq<Event>): World
    requires Admits(w, run)
    decreases |run|
  {
    if run == [] then w else Exec(Apply(w, run[0]), run[1..])
  }

  // ---- Invariant -----------------------------------------------------------

  ghost predicate Initial(w: World) {
    w.calls == map[] && w.via == map[] && w.tokens == map[] && w.amended == {} && IdsDistinct(w)
  }

  ghost predicate IdsDistinct(w: World) {
    && (forall p <- w.agents :: w.agents[p].id <= w.lastId)
    && (forall p <- w.agents, q <- w.agents :: w.agents[p].id == w.agents[q].id ==> p == q)
  }

  // Call `c` inserted agent `pid` and gave it the allowlist its token was minted with,
  // which it has unless an operator amended it.
  ghost predicate Enrolled(w: World, c: CallId, pid: PublicId)
    requires CallAt(w, c)
  {
    && pid in w.agents && pid in w.via && w.via[pid] == c
    && w.calls[c].token in w.tokens
    && (pid !in w.amended ==> w.agents[pid].allowlist == w.tokens[w.calls[c].token].scope.allowlist)
  }

  ghost predicate CallOk(w: World, c: CallId)
    requires CallAt(w, c)
  {
    var Call(t, secret, _, stage) := w.calls[c];
    && (stage.Previewed? ==> t in w.tokens && w.tokens[t].scope == stage.scope)
    && (stage.HasAgent() ==> Enrolled(w, c, stage.agent))
    && (stage.Inserted? || stage.Fetched? || stage.Verified? ==> t in w.tokens && w.tokens[t].scope == stage.scope)
    && (stage.Fetched? || stage.Verified? ==> stage.id == w.agents[stage.agent].id)
    && (stage.Verified? ==> Verify(w.tokens[t].hash, secret))
    && (stage.Finished? && stage.result.Registered? ==> RegisteredOk(w, c))
  }

  ghost predicate RegisteredOk(w: World, c: CallId)
    requires CallAt(w, c) && w.calls[c].stage.Finished? && w.calls[c].stage.result.Registered?
  {
    var Registered(pid, allowlist) := w.calls[c].stage.result;
    && Enrolled(w, c, pid)
    && var row := w.tokens[w.calls[c].token];
       && Verify(row.hash, w.calls[c].secret)
       && allowlist == row.scope.allowlist
       && row.usedBy.Some?
       && (row.scope.singleUse ==> row.usedBy == Some(w.agents[pid].id))
  }

  // The agent a call inserted is the one it is still working on, the one it
  // returned, or revoked.
  ghost predicate AgentOk(w: World, pid: PublicId)
    requires pid in w.via
  {
    && pid in w.agents && CallAt(w, w.via[pid])
    && var stage := w.calls[w.via[pid]].stage;
       || (stage.HasAgent() && stage.agent == pid)
       || (stage.Finished? && stage.result.Registered? && stage.result.agent == pid)
       || (stage.Finished? && !stage.result.Registered? && !Active(w.agents, pid))
  }

  ghost predicate RegisteredFor(w: World, c: CallId, t: PublicId) {
    && CallAt(w, c) && w.calls[c].token == t
    && w.calls[c].stage.Finished? && w.calls[c].stage.result.Registered?
  }

  // Only a successful registration consumes, and a single-use row is marked used
  // exactly when it names a consumer.
  ghost predicate TokenOk(w: World, t: PublicId)
    requires t in w.tokens
  {
    && (w.tokens[t].usedBy.Some? ==> exists c :: RegisteredFor(w, c, t))
    && (w.tokens[t].scope.singleUse ==> (w.tokens[t].usedAt.Some? <==> w.tokens[t].usedBy.Some?))
    && (!w.tokens[t].scope.singleUse ==> w.tokens[t].usedAt.None?)
  }

  ghost predicate Inv(w: World) {
    && IdsDistinct(w)
    && (forall c <- w.calls :: CallOk(w, c))
    && (forall pid <- w.via :: AgentOk(w, pid))
    && (forall t <- w.tokens :: TokenOk(w, t))
  }

  // What no step takes back: a token keeps the hash and scope it was minted with
  // and stays used or revoked; an agent keeps its identity, stays revoked, and keeps its
  // allowlist until an operator amends it.
  ghost predicate Extends(w: World, w': World) {
    && TokensExtend(w.tokens, w'.tokens)
    && AgentsExtend(w.agents, w'.agents, w'.amended)
    && w.amended <= w'.amended
    && (forall p <- w.via :: p in w'.via && (p in w.agents ==> w'.via[p] == w.via[p]))
    && CallsExtend(w.calls, w'.calls)
  }

  ghost predicate TokensExtend(tokens: Tokens, tokens': Tokens) {
    forall t <- tokens :: t in tokens'
      && tokens'[t].hash == tokens[t].hash && tokens'[t].scope == tokens[t].scope
      && (tokens[t].usedAt.Some? ==> tokens'[t].usedAt.Some?)
      && (tokens[t].revokedAt.Some? ==> tokens'[t].revokedAt.Some?)
  }

  ghost predicate AgentsExtend(agents: Agents, agents': Agents, amended: set<PublicId>) {
    forall p <- agents :: p in agents'
      && agents'[p].id == agents[p].id && agents'[p].name == agents[p].name
      && (p !in amended ==> agents'[p].allowlist == agents[p].allowlist)
      && (agents[p].revokedAt.Some? ==> agents'[p].revokedAt.Some?)
  }

  ghost predicate CallsExtend(calls: map<CallId, Call>, calls': map<CallId, Call>) {
    forall c <- calls :: c in calls'
      && calls'[c].token == calls[c].token && calls'[c].secret == calls[c].secret && calls'[c].name == calls[c].name
  }

  lemma StepExtendsTokens(w: World, e: Event)
    requires Enabled(w, e)
    ensures TokensExtend(w.tokens, Apply(w, e).tokens)
  {
    hide NameTaken, RevokeAgent, CasSecret, SetPolicy, Active, Presentable, Verify;
  }

  lemma StepExtendsAgents(w: World, e: Event)
    requires Enabled(w, e)
    ensures AgentsExtend(w.agents, Apply(w, e).agents, Apply(w, e).amended)
  {
    hide NameTaken, MarkUsed, RevokeToken, Presentable, Verify;
  }

  lemma StepExtendsCalls(w: World, e: Event)
    requires Enabled(w, e)
    ensures CallsExtend(w.calls, Apply(w, e).calls)
  {
    hide NameTaken, MarkUsed, RevokeToken, RevokeAgent, CasSecret, SetPolicy, Active, Presentable, Verify;
  }

  lemma StepExtends(w: World, e: Event)
    requires Enabled(w, e)
    ensures Extends(w, Apply(w, e))
  {
    hide TokensExtend, AgentsExtend, CallsExtend, NameTaken, MarkUsed, RevokeToken, RevokeAgent, CasSecret, SetPolicy,
         Presentable, Verify;
    StepExtendsTokens(w, e);
    StepExtendsAgents(w, e);
    StepExtendsCalls(w, e);
  }

  // At most one agent is added by a step, under the next id.
  lemma StepAddsOneAgent(w: World, e: Event)
    requires Enabled(w, e)
    ensures var w' := Apply(w, e);
            && w.lastId <= w'.lastId
            && (forall p <- w'.agents :: p !in w.agents ==> w'.agents[p].id == w.lastId + 1 == w'.lastId)
            && (forall p <- w'.agents, q <- w'.agents :: p !in w.agents && q !in w.agents ==> p == q)
  {
    hide NameTaken, MarkUsed, RevokeToken, Presentable, Verify;
  }

  lemma StepKeepsIds(w: World, e: Event)
    requires IdsDistinct(w) && Enabled(w, e)
    ensures IdsDistinct(Apply(w, e))
  {
    StepExtendsAgents(w, e);
    StepAddsOneAgent(w, e);
    hide Apply;
  }

  predicate OfCall(e: Event) {
    e.Preview? || e.Insert? || e.Fetch? || e.Read? || e.Mark? || e.Compensate?
  }

  lemma OtherCallUnmoved(w: World, e: Event, c: CallId)
    requires Enabled(w, e) && CallAt(w, c) && !(OfCall(e) && e.c == c)
    ensures CallAt(Apply(w, e), c) && Apply(w, e).calls[c] == w.calls[c]
  {
    hide NameTaken, MarkUsed, RevokeToken, RevokeAgent, CasSecret, SetPolicy, Active, Presentable, Verify;
  }

  lemma NewCallOk(w: World, e: Event, c: CallId)
    requires Enabled(w, e) && !CallAt(w, c) && CallAt(Apply(w, e), c)
    ensures CallOk(Apply(w, e), c)
  {
    hide NameTaken, MarkUsed, RevokeToken, RevokeAgent, CasSecret, SetPolicy, Active, Presentable, Verify;
  }

  lemma StepKeepsCall(w: World, e: Event, c: CallId)
    requires Inv(w) && Enabled(w, e) && CallAt(Apply(w, e), c)
    ensures CallOk(Apply(w, e), c)
  {
    if !CallAt(w, c) {
      NewCallOk(w, e, c);
    } else {
      assert CallOk(w, c);
      if OfCall(e) && e.c == c {
        OwnCallKept(w, e);
      } else {
        OtherCallUnmoved(w, e, c);
        StepExtends(w, e);
        var t := w.calls[c].token;
        if t in w.tokens {
          assert TokenOk(w, t);
          ConsumerKept(w, e, t);
        }
        hide Apply, CallOk, TokenOk, Extends;
        OtherCallKept(w, Apply(w, e), c);
      }
    }
  }

  lemma OwnCallKept(w: World, e: Event)
    requires Enabled(w, e) && OfCall(e) && CallOk(w, e.c)
    ensures CallOk(Apply(w, e), e.c)
  {
  }

  lemma ConsumerKept(w: World, e: Event, t: PublicId)
    requires Enabled(w, e) && t in w.tokens && TokenOk(w, t)
    ensures w.tokens[t].usedBy.Some? ==>
            var row, row' := w.tokens[t], Apply(w, e).tokens[t];
            row'.usedBy.Some? && (row.scope.singleUse ==> row'.usedBy == row.usedBy)
  {
  }

  lemma OtherCallKept(w: World, w': World, c: CallId)
    requires CallAt(w, c) && CallAt(w', c) && w'.calls[c] == w.calls[c]
    requires CallOk(w, c) && Extends(w, w')
    requires var t := w.calls[c].token;
             t in w.tokens && w.tokens[t].usedBy.Some? ==>
               w'.tokens[t].usedBy.Some? && (w.tokens[t].scope.singleUse ==> w'.tokens[t].usedBy == w.tokens[t].usedBy)
    ensures CallOk(w', c)
  {
  }

  lemma StepKeepsAgent(w: World, e: Event, pid: PublicId)
    requires Inv(w) && Enabled(w, e) && pid in Apply(w, e).via
    ensures AgentOk(Apply(w, e), pid)
  {
    StepExtends(w, e);
    if pid in w.via {
      assert AgentOk(w, pid);
      KnownAgentKept(w, e, pid);
    }
  }

  lemma KnownAgentKept(w: World, e: Event, pid: PublicId)
    requires Enabled(w, e) && pid in w.via && AgentOk(w, pid)
    requires Extends(w, Apply(w, e))
    ensures AgentOk(Apply(w, e), pid)
  {
    if OfCall(e) && e.c == w.via[pid] {
      OwnAgentKept(w, e, pid);
    } else {
      OtherCallUnmoved(w, e, w.via[pid]);
      hide Apply, TokensExtend;
    }
  }

  lemma OwnAgentKept(w: World, e: Event, pid: PublicId)
    requires Enabled(w, e) && OfCall(e) && pid in w.via && w.via[pid] == e.c && AgentOk(w, pid)
    ensures pid in Apply(w, e).via && AgentOk(Apply(w, e), pid)
  {
    hide NameTaken, MarkUsed, Presentable, Verify;
  }

  lemma RegistrationKept(w: World, e: Event, c: CallId, t: PublicId)
    requires Enabled(w, e) && RegisteredFor(w, c, t)
    ensures RegisteredFor(Apply(w, e), c, t)
  {
    hide NameTaken, MarkUsed, RevokeToken, RevokeAgent, CasSecret, SetPolicy, Active, Presentable, Verify;
  }

  // A token row changes by being minted, revoked or marked.
  lemma TokenRowChanges(w: World, e: Event, t: PublicId)
    requires Enabled(w, e) && t in Apply(w, e).tokens
    ensures var w' := Apply(w, e);
            || (t !in w.tokens && w'.tokens[t].usedBy.None? && w'.tokens[t].usedAt.None?)
            || (t in w.tokens && w'.tokens[t] == w.tokens[t].(revokedAt := w'.tokens[t].revokedAt))
            || (t in w.tokens && e.Mark? && RegisteredFor(w', e.c, t)
                && w'.tokens == MarkUsed(w.tokens, t, w.tokens[t].scope.singleUse, w.calls[e.c].stage.id, e.now))
  {
    hide NameTaken, RevokeAgent, CasSecret, SetPolicy, Active, Presentable, Verify;
  }

  lemma StepKeepsToken(w: World, e: Event, t: PublicId)
    requires Enabled(w, e) && t in Apply(w, e).tokens
    requires t in w.tokens ==> TokenOk(w, t)
    ensures TokenOk(Apply(w, e), t)
  {
    TokenRowChanges(w, e, t);
    forall c | RegisteredFor(w, c, t)
      ensures RegisteredFor(Apply(w, e), c, t)
    {
      RegistrationKept(w, e, c, t);
    }
    hide RegisteredFor, Enabled, Apply;
  }

  lemma StepKeepsInv(w: World, e: Event)
    requires Inv(w) && Enabled(w, e)
    ensures Inv(Apply(w, e))
  {
    var w' := Apply(w, e);
    StepKeepsIds(w, e);
    forall c <- w'.calls ensures CallOk(w', c) { StepKeepsCall(w, e, c); }
    forall pid <- w'.via ensures AgentOk(w', pid) { StepKeepsAgent(w, e, pid); }
    forall t <- w'.tokens ensures TokenOk(w', t) { StepKeepsToken(w, e, t); }
  }

  lemma {:induction false} RunKeepsInv(w: World, run: seq<Event>)
    requires Inv(w) && Admits(w, run)
    ensures Inv(Exec(w, run)) && Extends(w, Exec(w, run))
    decreases |run|
  {
    if run != [] {
      StepKeepsInv(w, run[0]);
      StepExtends(w, run[0]);
      RunKeepsInv(Apply(w, run[0]), run[1..]);
    }
  }

  lemma ReachableInv(w: World, run: seq<Event>)
    requires Initial(w) && Admits(w, run)
    ensures Inv(Exec(w, run))
  {
    RunKeepsInv(w, run);
  }

  // ---- Single use ----------------------------------------------------------

  lemma AtMostOneRegistered(w: World, run: seq<Event>, t: PublicId, c: CallId, d: CallId)
    requires Initial(w) && Admits(w, run)
    requires var w' := Exec(w, run);
             && t in w'.tokens && w'.tokens[t].scope.singleUse
             && RegisteredFor(w', c, t) && RegisteredFor(w', d, t)
    ensures c == d
  {
    ReachableInv(w, run);
    var w' := Exec(w, run);
    assert CallOk(w', c) && CallOk(w', d);
  }

  // Whoever registers has presented the secret the token was minted with.
  lemma RegisteredHadTheSecret(w: World, run: seq<Event>, c: CallId, t: PublicId)
    requires Initial(w) && Admits(w, run) && RegisteredFor(Exec(w, run), c, t)
    ensures t in Exec(w, run).tokens && Exec(w, run).calls[c].secret == Exec(w, run).tokens[t].hash.secret
  {
    ReachableInv(w, run);
    assert CallOk(Exec(w, run), c);
  }

  // So a call with another secret never succeeds, in no continuation.
  lemma WrongSecretNeverRegisters(w: World, run: seq<Event>, c: CallId)
    requires Inv(w) && Admits(w, run) && CallAt(w, c) && w.calls[c].token in w.tokens
    requires w.calls[c].secret != w.tokens[w.calls[c].token].hash.secret
    ensures !RegisteredFor(Exec(w, run), c, w.calls[c].token)
  {
    RunKeepsInv(w, run);
    var w' := Exec(w, run);
    assert CallOk(w', c);
    assert w'.calls[c].secret == w.calls[c].secret;
  }

  // The registration with token `t` that inserted `pid` is over and `pid` is active.
  ghost predicate ActiveAfter(w: World, t: PublicId, pid: PublicId) {
    && pid in w.via && CallAt(w, w.via[pid])
    && w.calls[w.via[pid]].token == t && w.calls[w.via[pid]].stage.Finished?
    && Active(w.agents, pid)
  }

  // From the mint on: once the registrations of two active agents are over, the
  // agents are one and the same, that registration succeeded and returned the allowlist
  // the token had been minted with, and the agent carries it unless it was amended.
  lemma AtMostOneActive(w: World, run: seq<Event>, t: PublicId, p: PublicId, q: PublicId)
    requires Inv(w) && Admits(w, run) && t in w.tokens && w.tokens[t].scope.singleUse
    requires ActiveAfter(Exec(w, run), t, p) && ActiveAfter(Exec(w, run), t, q)
    ensures p == q
    ensures var w' := Exec(w, run);
            && w'.calls[w'.via[p]].stage == Finished(Registered(p, w.tokens[t].scope.allowlist))
            && (p !in w'.amended ==> w'.agents[p].allowlist == w.tokens[t].scope.allowlist)
  {
    RunKeepsInv(w, run);
    var w' := Exec(w, run);
    assert AgentOk(w', p) && AgentOk(w', q);
    assert CallOk(w', w'.via[p]) && CallOk(w', w'.via[q]);
  }

  // ---- What failures leave behind ------------------------------------------

  // The only step of a registration that writes a token row is the one that
  // makes it succeed, and it writes its own token's row.
  lemma OnlySuccessConsumes(w: World, e: Event)
    requires Enabled(w, e) && OfCall(e) && Apply(w, e).tokens != w.tokens
    ensures RegisteredFor(Apply(w, e), e.c, w.calls[e.c].token)
    ensures Apply(w, e).tokens - {w.calls[e.c].token} == w.tokens - {w.calls[e.c].token}
  {
  }

  lemma {:induction false} RunKeepsRegistration(w: World, run: seq<Event>, c: CallId, t: PublicId)
    requires Admits(w, run) && RegisteredFor(w, c, t)
    ensures RegisteredFor(Exec(w, run), c, t)
    decreases |run|
  {
    hide Apply, Enabled, RegisteredFor;
    if run != [] {
      RegistrationKept(w, run[0], c, t);
      RunKeepsRegistration(Apply(w, run[0]), run[1..], c, t);
    }
  }

  // Whatever runs next to it, no step of a registration that does not succeed, by name
  // conflict or otherwise, writes the token table.
  lemma {:induction false} FailedCallWritesNoToken(w: World, run: seq<Event>, k: nat, c: CallId)
    requires Admits(w, run) && k < |run| && OfCall(run[k]) && run[k].c == c
    requires forall t :: !RegisteredFor(Exec(w, run), c, t)
    ensures Admits(w, run[..k]) && Enabled(Exec(w, run[..k]), run[k])
    ensures Apply(Exec(w, run[..k]), run[k]).tokens == Exec(w, run[..k]).tokens
    decreases |run|
  {
    var next := Apply(w, run[0]);
    assert Exec(w, run) == Exec(next, run[1..]);
    if k == 0 {
      assert run[..k] == [] && CallAt(w, c);
      hide Apply, Enabled, RegisteredFor;
      if next.tokens != w.tokens {
        OnlySuccessConsumes(w, run[0]);
        RunKeepsRegistration(next, run[1..], c, w.calls[c].token);
        assert false;
      }
    } else {
      hide Apply, Enabled, RegisteredFor;
      FailedCallWritesNoToken(next, run[1..], k - 1, c);
      assert run[..k][0] == run[0] && run[..k][1..] == run[1..][..k - 1];
    }
  }

  // A token names a consumer exactly when some registration with it succeeded, and a
  // single-use token is marked used exactly then.
  lemma TokenUsedIffRegistered(w: World, run: seq<Event>, t: PublicId)
    requires Initial(w) && Admits(w, run) && t in Exec(w, run).tokens
    ensures var w' := Exec(w, run);
            && (w'.tokens[t].usedBy.Some? <==> exists c :: RegisteredFor(w', c, t))
            && (w'.tokens[t].usedAt.Some? <==> w'.tokens[t].scope.singleUse && exists c :: RegisteredFor(w', c, t))
  {
    ReachableInv(w, run);
    var w' := Exec(w, run);
    assert TokenOk(w', t);
    if c :| RegisteredFor(w', c, t) {
      assert CallOk(w', c);
    }
  }

  // So a token whose registrations all failed, by name conflict or otherwise, is
  // neither used nor attributed to an agent.
  lemma FailuresLeaveTokenUnused(w: World, run: seq<Event>, t: PublicId)
    requires Initial(w) && Admits(w, run) && t in Exec(w, run).tokens
    requires forall c :: !RegisteredFor(Exec(w, run), c, t)
    ensures Exec(w, run).tokens[t].usedAt.None? && Exec(w, run).tokens[t].usedBy.None?
  {
    ReachableInv(w, run);
    assert TokenOk(Exec(w, run), t);
  }

  // ---- The name a registration took ----------------------------------------

  // The row call `c` inserted is there, under the name the call asked for.
  ghost predicate OwnRow(w: World, c: CallId, pid: PublicId) {
    CallAt(w, c) && pid in w.agents && pid in w.via && w.via[pid] == c && w.agents[pid].name == w.calls[c].name
  }

  ghost predicate HoldsName(w: World, c: CallId) {
    exists pid :: OwnRow(w, c, pid)
  }

  // The step is the insert of call `c`, and the name is free.
  ghost predicate Inserts(w: World, e: Event, c: CallId) {
    e.Insert? && e.c == c && CallAt(w, c) && !NameTaken(w.agents, w.calls[c].name)
  }

  ghost predicate EverInserts(w: World, run: seq<Event>, c: CallId)
    requires Admits(w, run)
    decreases |run|
  {
    run != [] && (Inserts(w, run[0], c) || EverInserts(Apply(w, run[0]), run[1..], c))
  }

  lemma StepKeepsOwnRow(w: World, e: Event, c: CallId, pid: PublicId)
    requires Enabled(w, e) && OwnRow(w, c, pid)
    ensures OwnRow(Apply(w, e), c, pid)
  {
    StepExtends(w, e);
    hide Apply, Enabled;
  }

  lemma StepAddsOwnRow(w: World, e: Event, c: CallId, pid: PublicId)
    requires Inv(w) && Enabled(w, e) && OwnRow(Apply(w, e), c, pid) && !OwnRow(w, c, pid)
    ensures Inserts(w, e, c)
  {
    if pid in w.via {
      assert AgentOk(w, pid);
      StepExtends(w, e);
    }
    hide NameTaken, MarkUsed, RevokeToken, RevokeAgent, CasSecret, SetPolicy, Active, Presentable, Verify, AgentOk,
         CallOk, TokenOk, IdsDistinct, Extends;
  }

  lemma InsertTakesName(w: World, e: Event, c: CallId)
    requires Enabled(w, e) && Inserts(w, e, c)
    ensures OwnRow(Apply(w, e), c, e.pid)
  {
    hide NameTaken;
  }

  lemma StepHoldsNameIff(w: World, e: Event, c: CallId)
    requires Inv(w) && Enabled(w, e)
    ensures HoldsName(Apply(w, e), c) <==> HoldsName(w, c) || Inserts(w, e, c)
  {
    hide Apply, Enabled, OwnRow, Inv;
    if pid :| OwnRow(w, c, pid) {
      StepKeepsOwnRow(w, e, c, pid);
    }
    if pid :| OwnRow(Apply(w, e), c, pid) && !OwnRow(w, c, pid) {
      StepAddsOwnRow(w, e, c, pid);
    }
    if Inserts(w, e, c) {
      InsertTakesName(w, e, c);
      assert OwnRow(Apply(w, e), c, e.pid);
    }
  }

  lemma {:induction false} RunHoldsNameIff(w: World, run: seq<Event>, c: CallId)
    requires Inv(w) && Admits(w, run)
    ensures HoldsName(Exec(w, run), c) <==> HoldsName(w, c) || EverInserts(w, run, c)
    decreases |run|
  {
    hide Apply, Enabled, HoldsName, Inserts, Inv;
    if run != [] {
      StepKeepsInv(w, run[0]);
      StepHoldsNameIff(w, run[0], c);
      RunHoldsNameIff(Apply(w, run[0]), run[1..], c);
    }
  }

  // However a registration ended, and whatever ran since, its row holds the name it asked
  // for if and only if it got past its insert.
  lemma NameHeldIffInserted(w: World, run: seq<Event>, c: CallId)
    requires Initial(w) && Admits(w, run)
    ensures HoldsName(Exec(w, run), c) <==> EverInserts(w, run, c)
  {
    RunHoldsNameIff(w, run, c);
  }

  // A name once held is never free again, also when its registration failed: every later
  // registration that asks for it ends in a name conflict.
  lemma HeldNameStaysTaken(w: World, run: seq<Event>, c: CallId)
    requires Inv(w) && Admits(w, run) && HoldsName(w, c)
    ensures NameTaken(Exec(w, run).agents, w.calls[c].name)
    ensures forall e :: Enabled(Exec(w, run), e) && e.Insert? && Exec(w, run).calls[e.c].name == w.calls[c].name ==>
              Apply(Exec(w, run), e).calls[e.c].stage == Finished(NameConflict)
  {
    hide Apply, Inv;
    RunHoldsNameIff(w, run, c);
    CallKeepsName(w, run, c);
    var w' := Exec(w, run);
    var pid :| OwnRow(w', c, pid);
    assert NameTaken(w'.agents, w.calls[c].name) by { assert w'.agents[pid].name == w.calls[c].name; }
    hide NameTaken;
    forall e | Enabled(w', e) && e.Insert? && w'.calls[e.c].name == w.calls[c].name
      ensures e.c in Apply(w', e).calls && Apply(w', e).calls[e.c].stage == Finished(NameConflict)
    {
      TakenNameConflicts(w', e);
    }
  }

  lemma CallKeepsName(w: World, run: seq<Event>, c: CallId)
    requires Inv(w) && Admits(w, run) && CallAt(w, c)
    ensures CallAt(Exec(w, run), c) && Exec(w, run).calls[c].name == w.calls[c].name
  {
    RunKeepsInv(w, run);
    hide Inv, TokensExtend, AgentsExtend;
  }

  lemma TakenNameConflicts(w: World, e: Event)
    requires Enabled(w, e) && e.Insert? && NameTaken(w.agents, w.calls[e.c].name)
    ensures e.c in Apply(w, e).calls && Apply(w, e).calls[e.c].stage == Finished(NameConflict)
  {
    hide NameTaken;
  }

  // ---- An undisturbed registration -----------------------------------------

  datatype Request = Request(token: PublicId, secret: string, name: string, pid: PublicId, hash: Hash,
                             metadata: Option<string>, now: int)

  // The row an insert adds.
  function NewRow(w: World, r: Request): Agent
    requires r.token in w.tokens
  {
    Agent(w.lastId + 1, r.name, r.hash, w.tokens[r.token].scope.allowlist, None, r.metadata, None, None)
  }

  function InsertedWorld(w: World, c: CallId, r: Request): World
    requires r.token in w.tokens
  {
    w.(calls := w.calls[c := Call(r.token, r.secret, r.name, Inserted(w.tokens[r.token].scope, r.pid))],
       agents := w.agents[r.pid := NewRow(w, r)], lastId := w.lastId + 1, via := w.via[r.pid := c])
  }

  lemma AloneInserts(w: World, c: CallId, r: Request)
    requires c !in w.calls && r.pid !in w.agents
    requires Presentable(w.tokens, r.token, r.now) && !NameTaken(w.agents, r.name)
    ensures var e, f, g := Register(c, r.token, r.secret, r.name), Preview(c, r.now),
                           Insert(c, r.pid, r.hash, r.metadata);
            && Enabled(w, e) && Enabled(Apply(w, e), f) && Enabled(Apply(Apply(w, e), f), g)
            && Apply(Apply(Apply(w, e), f), g) == InsertedWorld(w, c, r)
  {
    hide NameTaken, Presentable;
  }

  lemma AloneReads(w: World, c: CallId, r: Request)
    requires r.pid !in w.agents && Presentable(w.tokens, r.token, r.now)
    ensures var w', e, f := InsertedWorld(w, c, r), Fetch(c), Read(c, r.now);
            && Enabled(w', e) && Enabled(Apply(w', e), f)
            && var scope := w.tokens[r.token].scope;
               Apply(Apply(w', e), f) ==
               Move(w', c, if Verify(w.tokens[r.token].hash, r.secret) then Verified(scope, r.pid, w.lastId + 1)
                           else Compensating(r.pid))
  {
    hide Presentable, Verify;
  }

  lemma AloneEnds(w: World, c: CallId, r: Request)
    requires r.pid !in w.agents && Presentable(w.tokens, r.token, r.now)
    ensures var right := Verify(w.tokens[r.token].hash, r.secret);
            var w' := Move(InsertedWorld(w, c, r), c,
                           if right then Verified(w.tokens[r.token].scope, r.pid, w.lastId + 1)
                           else Compensating(r.pid));
            var e := if right then Mark(c, r.now) else Compensate(c, r.now);
            && Enabled(w', e) && CallAt(Apply(w', e), c) && Ends(w, c, r, Apply(w', e))
  {
    hide NameTaken, RevokeToken, CasSecret, SetPolicy;
  }

  // How a registration with a presentable token and a free name leaves the tables.
  ghost predicate Ends(w: World, c: CallId, r: Request, w': World)
    requires r.token in w.tokens && CallAt(w', c)
  {
    if r.secret != w.tokens[r.token].hash.secret then
      && w'.calls[c].stage == Finished(InvalidBootstrap) && w'.tokens == w.tokens
      && w'.agents == w.agents[r.pid := NewRow(w, r).(revokedAt := Some(r.now))]
    else
      && w'.calls[c].stage == Finished(Registered(r.pid, w.tokens[r.token].scope.allowlist))
      && w'.agents == w.agents[r.pid := NewRow(w, r)]
      && r.token in w'.tokens && w'.tokens == w.tokens[r.token := w'.tokens[r.token]]
      && w'.tokens[r.token].usedBy == Some(w.lastId + 1)
      && w'.tokens[r.token].usedAt == if w.tokens[r.token].scope.singleUse then Some(r.now) else None
  }

  lemma AloneCompletes(w: World, c: CallId, r: Request) returns (run: seq<Event>)
    requires c !in w.calls && r.pid !in w.agents
    requires Presentable(w.tokens, r.token, r.now) && !NameTaken(w.agents, r.name)
    ensures Admits(w, run) && CallAt(Exec(w, run), c) && Ends(w, c, r, Exec(w, run))
  {
    AloneInserts(w, c, r);
    AloneReads(w, c, r);
    AloneEnds(w, c, r);
    var last := if Verify(w.tokens[r.token].hash, r.secret) then Mark(c, r.now) else Compensate(c, r.now);
    var events := [Register(c, r.token, r.secret, r.name), Preview(c, r.now), Insert(c, r.pid, r.hash, r.metadata),
                   Fetch(c), Read(c, r.now), last];
    hide Apply, Enabled, NameTaken, Presentable, InsertedWorld, Ends, Verify;
    run := Sequence(w, events[0], events[1], events[2]);
    var rest := Sequence(Exec(w, run), events[3], events[4], events[5]);
    ExecJoin(w, run, rest);
    run := run + rest;
  }

  lemma Sequence(w: World, e: Event, f: Event, g: Event) returns (run: seq<Event>)
    requires Enabled(w, e) && Enabled(Apply(w, e), f) && Enabled(Apply(Apply(w, e), f), g)
    ensures Admits(w, run) && Exec(w, run) == Apply(Apply(Apply(w, e), f), g)
  {
    hide Apply, Enabled;
    ExecAppend(w, [], e);
    ExecAppend(w, [] + [e], f);
    ExecAppend(w, [] + [e] + [f], g);
    run := [] + [e] + [f] + [g];
  }

  lemma {:induction false} ExecJoin(w: World, run: seq<Event>, rest: seq<Event>)
    requires Admits(w, run) && Admits(Exec(w, run), rest)
    ensures Admits(w, run + rest) && Exec(w, run + rest) == Exec(Exec(w, run), rest)
    decreases |run|
  {
    hide Apply, Enabled;
    if run == [] {
      assert run + rest == rest;
    } else {
      assert (run + rest)[0] == run[0] && (run + rest)[1..] == run[1..] + rest;
      ExecJoin(Apply(w, run[0]), run[1..], rest);
    }
  }

  // How a registration ends when nobody else steps in, for every request: refused for a
  // token that cannot be presented or a taken name, with nothing changed; for a wrong
  // secret, with the new agent revoked and the token as it was; else with an active agent,
  // the minted allowlist, and the token consumed by it.
  lemma UndisturbedRegistration(w: World, c: CallId, r: Request) returns (run: seq<Event>)
    requires c !in w.calls && r.pid !in w.agents
    ensures Admits(w, run) && CallAt(Exec(w, run), c)
    ensures var w' := Exec(w, run);
            if !Presentable(w.tokens, r.token, r.now) then
              w'.calls[c].stage == Finished(InvalidBootstrap) && w'.tokens == w.tokens && w'.agents == w.agents
            else if NameTaken(w.agents, r.name) then
              w'.calls[c].stage == Finished(NameConflict) && w'.tokens == w.tokens && w'.agents == w.agents
            else
              Ends(w, c, r, w')
  {
    hide NameTaken, Ends;
    if Presentable(w.tokens, r.token, r.now) && !NameTaken(w.agents, r.name) {
      run := AloneCompletes(w, c, r);
    } else {
      var e, f, g := Register(c, r.token, r.secret, r.name), Preview(c, r.now), Insert(c, r.pid, r.hash, r.metadata);
      ExecAppend(w, [], e);
      ExecAppend(w, [] + [e], f);
      run := [] + [e] + [f];
      if Presentable(w.tokens, r.token, r.now) {
        ExecAppend(w, run, g);
        run := run + [g];
      }
    }
  }

  // ---- Operator steps ------------------------------------------------------

  // What the operator's steps do: a revoked token is presentable at no time and a revoked
  // agent inactive; a created agent is active with the lists given; a rotated secret is the
  // new one; an amended policy is the one given. Nothing else changes.
  lemma OperatorStepsTakeEffect(w: World, e: Event)
    requires Enabled(w, e)
    ensures var w' := Apply(w, e);
            && (e.RevokeBootstrap? ==>
                  && (forall now :: !Presentable(w'.tokens, e.token, now))
                  && w'.tokens - {e.token} == w.tokens - {e.token} && w' == w.(tokens := w'.tokens))
            && (e.RevokeByOperator? ==>
                  && !Active(w'.agents, e.pid)
                  && w'.agents - {e.pid} == w.agents - {e.pid} && w' == w.(agents := w'.agents))
            && (e.CreateByOperator? ==>
                  && Active(w'.agents, e.pid) && w'.agents[e.pid].name == e.name && w'.agents[e.pid].hash == e.hash
                  && w'.agents[e.pid].allowlist == e.allowlist && w'.agents[e.pid].denylist == e.denylist
                  && w'.agents - {e.pid} == w.agents && w'.tokens == w.tokens)
            && (e.Rotate? ==>
                  && Active(w'.agents, e.pid) && w'.agents[e.pid] == w.agents[e.pid].(hash := e.hash)
                  && w'.agents - {e.pid} == w.agents - {e.pid})
            && (e.UpdatePolicy? && e.pid in w.agents ==>
                  && e.pid in w'.agents
                  && (e.change.allowlist.Some? ==> w'.agents[e.pid].allowlist == e.change.allowlist.value)
                  && (e.pid in w'.amended <==> e.pid in w.amended || e.change.allowlist.Some?)
                  && w'.agents - {e.pid} == w.agents - {e.pid})
            && (e.Mint? ==>
                  && (forall now :: Presentable(w'.tokens, e.token, now) <==>
                        e.scope.expires.None? || now <= e.scope.expires.value)
                  && w'.tokens[e.token].scope == e.scope && w'.tokens[e.token].hash == e.hash
                  && w'.tokens - {e.token} == w.tokens)
  {
    hide NameTaken;
  }

  // ---- Revoking a token during a registration ------------------------------

  ghost predicate TokenRevoked(w: World, c: CallId) {
    CallAt(w, c) && w.calls[c].token in w.tokens && w.tokens[w.calls[c].token].revokedAt.Some?
  }

  // The call has passed the read of `consume` and its guarded update still applies.
  ghost predicate PastTheCheck(w: World, c: CallId)
    requires TokenRevoked(w, c)
  {
    var t := w.calls[c].token;
    w.calls[c].stage.Verified? && MarkApplies(w.tokens, t, w.tokens[t].scope.singleUse)
  }

  ghost predicate Doomed(w: World, c: CallId) {
    TokenRevoked(w, c) && !PastTheCheck(w, c) && !RegisteredFor(w, c, w.calls[c].token)
  }

  // Only a call's own step moves it; its token row can only become harder to mark.
  lemma OthersKeepDoomed(w: World, w': World, c: CallId)
    requires Doomed(w, c)
    requires TokensExtend(w.tokens, w'.tokens)
    requires CallAt(w', c) && w'.calls[c] == w.calls[c]
    ensures Doomed(w', c)
  {
  }

  lemma OwnStepKeepsDoomed(w: World, e: Event)
    requires Enabled(w, e) && OfCall(e) && Doomed(w, e.c)
    ensures Doomed(Apply(w, e), e.c)
  {
    hide NameTaken, RevokeAgent, Active, Verify;
  }

  lemma StepKeepsDoomed(w: World, e: Event, c: CallId)
    requires Enabled(w, e) && Doomed(w, c)
    ensures Doomed(Apply(w, e), c)
  {
    StepExtendsTokens(w, e);
    if OfCall(e) && e.c == c {
      OwnStepKeepsDoomed(w, e);
    } else {
      OtherCallUnmoved(w, e, c);
      hide Doomed, Apply;
      OthersKeepDoomed(w, Apply(w, e), c);
    }
  }

  lemma {:induction false} RunKeepsDoomed(w: World, run: seq<Event>, c: CallId)
    requires Admits(w, run) && Doomed(w, c)
    ensures Doomed(Exec(w, run), c)
    decreases |run|
  {
    if run != [] {
      StepKeepsDoomed(w, run[0], c);
      RunKeepsDoomed(Apply(w, run[0]), run[1..], c);
    }
  }

  // A registration in progress when its token is revoked can still succeed if and
  // only if it had already made the check of `consume`, which the guarded update
  // does not repeat.
  lemma RevokedTokenStillRegisters(w: World, c: CallId)
    requires TokenRevoked(w, c) && !w.calls[c].stage.Finished?
    ensures (exists run :: Admits(w, run) && RegisteredFor(Exec(w, run), c, w.calls[c].token))
            <==> PastTheCheck(w, c)
  {
    var t := w.calls[c].token;
    if PastTheCheck(w, c) {
      var run := OneStep(w, Mark(c, 0));
      assert Admits(w, run) && RegisteredFor(Exec(w, run), c, t);
    } else {
      forall run | Admits(w, run) ensures !RegisteredFor(Exec(w, run), c, t) {
        RunKeepsDoomed(w, run, c);
        CallKeepsToken(w, run, c);
      }
    }
  }

  lemma {:induction false} ExecAppend(w: World, run: seq<Event>, e: Event)
    requires Admits(w, run) && Enabled(Exec(w, run), e)
    ensures Admits(w, run + [e]) && Exec(w, run + [e]) == Apply(Exec(w, run), e)
    decreases |run|
  {
    hide Apply, Enabled;
    if run == [] {
      assert run + [e] == [e] && [e][1..] == [];
    } else {
      assert (run + [e])[1..] == run[1..] + [e];
      ExecAppend(Apply(w, run[0]), run[1..], e);
    }
  }

  // A run with one token and one registration, revoked after the check of `consume`.
  datatype Race = Race(token: PublicId, hash: Hash, scope: Scope, name: string, pid: PublicId, key: Hash)

  function RaceEvent(r: Race, i: nat): Event {
    match i
    case 0 => Mint(r.token, r.hash, r.scope)
    case 1 => Register(0, r.token, r.hash.secret, r.name)
    case 2 => Preview(0, 0)
    case 3 => Insert(0, r.pid, r.key, None)
    case 4 => Fetch(0)
    case 5 => Read(0, 0)
    case _ => RevokeBootstrap(r.token, 0)
  }

  function RaceStage(r: Race, i: nat): Stage {
    if i <= 2 then Started
    else if i == 3 then Previewed(r.scope)
    else if i == 4 then Inserted(r.scope, r.pid)
    else if i == 5 then Fetched(r.scope, r.pid, 1)
    else Verified(r.scope, r.pid, 1)
  }

  // Where it stands after `i` steps.
  function RaceState(r: Race, i: nat): World {
    World(if i == 0 then map[]
          else map[r.token := BootToken(r.hash, r.scope, None, None, if i >= 7 then Some(0) else None)],
          if i <= 3 then map[] else map[r.pid := Agent(1, r.name, r.key, r.scope.allowlist, None, None, None, None)],
          if i <= 3 then 0 else 1,
          if i <= 1 then map[] else map[0 := Call(r.token, r.hash.secret, r.name, RaceStage(r, i))],
          if i <= 3 then map[] else map[r.pid := 0],
          {})
  }

  lemma RaceStep(r: Race, i: nat)
    requires i < 7 && r.scope.expires.None?
    ensures Enabled(RaceState(r, i), RaceEvent(r, i))
    ensures Apply(RaceState(r, i), RaceEvent(r, i)) == RaceState(r, i + 1)
  {
    hide RevokeAgent, CasSecret, SetPolicy, MarkUsed;
    var now, next := RaceState(r, i), RaceState(r, i + 1);
    var after := Apply(now, RaceEvent(r, i));
    assert after.tokens == next.tokens && after.agents == next.agents;
    assert after.calls == next.calls && after.via == next.via;
  }

  // The daemon can get there, with every token that does not expire.
  lemma RevokedPastTheCheckIsReachable(r: Race) returns (w: World, run: seq<Event>, c: CallId)
    requires r.scope.expires.None?
    ensures Initial(w) && Admits(w, run)
    ensures TokenRevoked(Exec(w, run), c) && PastTheCheck(Exec(w, run), c)
    ensures Exec(w, run).calls[c].token == r.token && Exec(w, run).tokens[r.token].scope == r.scope
  {
    w, run, c := RaceState(r, 0), [], 0;
    var i: nat := 0;
    while i < 7
      invariant i <= 7 && Admits(w, run) && Exec(w, run) == RaceState(r, i)
    {
      hide Apply, Enabled, RaceState, RaceEvent;
      RaceStep(r, i);
      ExecAppend(w, run, RaceEvent(r, i));
      run, i := run + [RaceEvent(r, i)], i + 1;
    }
  }

  lemma OneStep(w: World, e: Event) returns (run: seq<Event>)
    requires Enabled(w, e)
    ensures Admits(w, run) && Exec(w, run) == Apply(w, e)
  {
    run := [e];
    assert run[1..] == [];
  }

  lemma {:induction false} CallKeepsToken(w: World, run: seq<Event>, c: CallId)
    requires Admits(w, run) && CallAt(w, c)
    ensures CallAt(Exec(w, run), c) && Exec(w, run).calls[c].token == w.calls[c].token
    decreases |run|
  {
    if run != [] {
      StepExtends(w, run[0]);
      CallKeepsToken(Apply(w, run[0]), run[1..], c);
    }
  }
}
