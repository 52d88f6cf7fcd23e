/**
 The `agents` and `bootstrap_tokens` tables. Each SQL statement is a function on
 the table; the two classes run the statements of one call back to back.

 A hash is the pair of the hashed secret and its salt: hashing is collision-free
 and `verify` accepts exactly the hashed secret.
 */
module AgentTables {
  import opened Prelude

  type PublicId = string
  type Allowlist = Option<seq<string>>

  datatype Hash = Hash(secret: string, salt: nat)

  predicate Verify(h: Hash, secret: string) {
    h.secret == secret
  }

  datatype Agent = Agent(id: nat, name: string, hash: Hash, allowlist: Allowlist, denylist: Allowlist,
                         metadata: Option<string>, expires: Option<int>, revokedAt: Option<int>)

  // The policy columns an operator gives; `None` leaves a column as it is.
  datatype PolicyChange = PolicyChange(allowlist: Option<Allowlist>, denylist: Option<Allowlist>,
                                       metadata: Option<Option<string>>, expires: Option<Option<int>>)

  type Agents = map<PublicId, Agent>

  predicate Active(agents: Agents, pid: PublicId) {
    pid in agents && agents[pid].revokedAt.None?
  }

  predicate NameTaken(agents: Agents, name: string) {
    exists pid <- agents :: agents[pid].name == name
  }

  // UPDATE agents SET revoked_at = now WHERE public_id = pid
  function RevokeAgent(agents: Agents, pid: PublicId, now: int): Agents {
    if pid in agents then agents[pid := agents[pid].(revokedAt := Some(now))] else agents
  }

  // UPDATE agents SET .. WHERE public_id = pid, for the policy columns given.
  function SetPolicy(agents: Agents, pid: PublicId, change: PolicyChange): Agents {
    if pid !in agents then agents
    else
      var row := agents[pid];
      agents[pid := row.(allowlist := Given(change.allowlist, row.allowlist),
                         denylist := Given(change.denylist, row.denylist),
                         metadata := Given(change.metadata, row.metadata),
                         expires := Given(change.expires, row.expires))]
  }

  function Given<T>(change: Option<T>, current: T): T {
    if change.Some? then change.value else current
  }

  // UPDATE agents SET secret_hash = next
  //   WHERE public_id = pid AND secret_hash = expected AND revoked_at IS NULL
  predicate CasApplies(agents: Agents, pid: PublicId, expected: Hash) {
    Active(agents, pid) && agents[pid].hash == expected
  }

  function CasSecret(agents: Agents, pid: PublicId, expected: Hash, next: Hash): Agents {
    if CasApplies(agents, pid, expected) then agents[pid := agents[pid].(hash := next)] else agents
  }

  datatype Scope = Scope(allowlist: Allowlist, expires: Option<int>, singleUse: bool)

  datatype BootToken = BootToken(hash: Hash, scope: Scope, usedAt: Option<int>,
                                 usedBy: Option<nat>, revokedAt: Option<int>)

  type Tokens = map<PublicId, BootToken>

  // The checks `preview_scope` and `consume` both make on the row they read.
  predicate Presentable(tokens: Tokens, pid: PublicId, now: int) {
    && pid in tokens
    && tokens[pid].usedAt.None?
    && tokens[pid].revokedAt.None?
    && !(tokens[pid].scope.expires.Some? && tokens[pid].scope.expires.value < now)
  }

  // The guarded UPDATE of `consume`: a single-use row must still be unused. The
  // statement does not look at `revoked_at` again.
  predicate MarkApplies(tokens: Tokens, pid: PublicId, singleUse: bool) {
    pid in tokens && (singleUse ==> tokens[pid].usedAt.None?)
  }

  function MarkUsed(tokens: Tokens, pid: PublicId, singleUse: bool, agentId: nat, now: int): Tokens
    requires MarkApplies(tokens, pid, singleUse)
  {
    tokens[pid := tokens[pid].(usedBy := Some(agentId),
                               usedAt := if singleUse then Some(now) else tokens[pid].usedAt)]
  }

  function RevokeToken(tokens: Tokens, pid: PublicId, now: int): Tokens {
    if pid in tokens then tokens[pid := tokens[pid].(revokedAt := Some(now))] else tokens
  }

  class AgentRepository {
    var rows: Agents
    var lastId: nat

    // `id` is the AUTOINCREMENT key; `name` is UNIQUE.
    ghost predicate Valid() reads this {
      && (forall p <- rows :: rows[p].id <= lastId)
      && (forall p <- rows, q <- rows :: rows[p].id == rows[q].id || rows[p].name == rows[q].name ==> p == q)
    }

    constructor ()
      ensures Valid() && rows == map[]
    {
      rows, lastId := map[], 0;
    }

    method Create(pid: PublicId, name: string, hash: Hash, allowlist: Allowlist, denylist: Allowlist,
                  metadata: Option<string>, expires: Option<int>)
      returns (ok: bool)
      requires Valid() && pid !in rows
      modifies this
      ensures Valid()
      ensures ok <==> !NameTaken(old(rows), name)
      ensures !ok ==> rows == old(rows)
      ensures ok ==> && rows == old(rows)[pid := Agent(old(lastId) + 1, name, hash, allowlist, denylist, metadata,
                                                       expires, None)]
                     && Active(rows, pid)
    {
      if exists p <- rows :: rows[p].name == name {
        return false;
      }
      lastId := lastId + 1;
      rows := rows[pid := Agent(lastId, name, hash, allowlist, denylist, metadata, expires, None)];
      return true;
    }

    method Revoke(pid: PublicId, now: int) returns (found: bool)
      requires Valid()
      modifies this`rows
      ensures Valid() && !Active(rows, pid)
      ensures found <==> pid in old(rows)
      ensures rows == RevokeAgent(old(rows), pid, now)
    {
      found := pid in rows;
      if found {
        rows := rows[pid := rows[pid].(revokedAt := Some(now))];
      }
    }

    // A policy change leaves an agent's identity, secret and revocation alone, and sets
    // exactly the columns given.
    method UpdatePolicy(pid: PublicId, change: PolicyChange) returns (ok: bool)
      requires Valid()
      modifies this`rows
      ensures Valid()
      ensures ok <==> pid in old(rows) || change == PolicyChange(None, None, None, None)
      ensures rows == SetPolicy(old(rows), pid, change)
      ensures rows.Keys == old(rows).Keys && forall p <- rows :: p != pid ==> rows[p] == old(rows)[p]
      ensures pid in rows ==>
                var row, row' := old(rows)[pid], rows[pid];
                && row'.id == row.id && row'.name == row.name && row'.hash == row.hash
                && row'.revokedAt == row.revokedAt
                && row'.allowlist == (if change.allowlist.Some? then change.allowlist.value else row.allowlist)
                && row'.denylist == (if change.denylist.Some? then change.denylist.value else row.denylist)
                && row'.metadata == (if change.metadata.Some? then change.metadata.value else row.metadata)
                && row'.expires == (if change.expires.Some? then change.expires.value else row.expires)
    {
      if change == PolicyChange(None, None, None, None) {
        assert SetPolicy(rows, pid, change) == rows;
        return true;
      }
      ok := pid in rows;
      rows := SetPolicy(rows, pid, change);
    }

    // With nobody in between, a rotation succeeds exactly for the current secret
    // of an active agent, and afterwards only the new secret verifies.
    method Rotate(pid: PublicId, secret: string, next: Hash) returns (ok: bool)
      requires Valid()
      modifies this`rows
      ensures Valid()
      ensures ok <==> Active(old(rows), pid) && Verify(old(rows)[pid].hash, secret)
      ensures !ok ==> rows == old(rows)
      ensures ok ==> Active(rows, pid) && forall s :: Verify(rows[pid].hash, s) <==> s == next.secret
      ensures rows.Keys == old(rows).Keys && forall p <- rows :: p != pid ==> rows[p] == old(rows)[p]
    {
      if pid !in rows || rows[pid].revokedAt.Some? || !Verify(rows[pid].hash, secret) {
        return false;
      }
      var expected := rows[pid].hash;
      ok := CasApplies(rows, pid, expected);
      rows := CasSecret(rows, pid, expected, next);
    }
  }

  class BootstrapTokenRepository {
    var rows: Tokens

    constructor ()
      ensures rows == map[]
    {
      rows := map[];
    }

    // A minted token can be presented until it expires, for the minted scope, and is
    // consumed by the minted secret alone.
    method Mint(pid: PublicId, hash: Hash, scope: Scope)
      requires pid !in rows
      modifies this
      ensures pid in rows && rows == old(rows)[pid := rows[pid]]
      ensures forall now :: Presentable(rows, pid, now) <==> scope.expires.None? || now <= scope.expires.value
      ensures forall s :: Verify(rows[pid].hash, s) <==> s == hash.secret
      ensures rows[pid].scope == scope && rows[pid].usedBy.None?
      ensures forall p, now :: p != pid ==> (Presentable(rows, p, now) <==> Presentable(old(rows), p, now))
    {
      rows := rows[pid := BootToken(hash, scope, None, None, None)];
    }

    method PreviewScope(pid: PublicId, now: int) returns (scope: Option<Scope>)
      ensures scope.Some? <==> Presentable(rows, pid, now)
      ensures scope.Some? ==> scope.value == rows[pid].scope
    {
      scope := if Presentable(rows, pid, now) then Some(rows[pid].scope) else None;
    }

    // A single-use token that was consumed is never presentable again.
    method Consume(pid: PublicId, secret: string, agentId: nat, now: int) returns (scope: Option<Scope>)
      modifies this
      ensures scope.Some? <==> Presentable(old(rows), pid, now) && Verify(old(rows)[pid].hash, secret)
      ensures scope.None? ==> rows == old(rows)
      ensures scope.Some? ==>
                && scope.value == old(rows)[pid].scope
                && pid in rows && rows == old(rows)[pid := rows[pid]]
                && rows[pid].usedBy == Some(agentId)
                && (scope.value.singleUse ==> forall t :: !Presentable(rows, pid, t))
                && (!scope.value.singleUse ==> rows[pid] == old(rows)[pid].(usedBy := Some(agentId)))
    {
      if !Presentable(rows, pid, now) || !Verify(rows[pid].hash, secret) {
        return None;
      }
      var singleUse := rows[pid].scope.singleUse;
      scope := Some(rows[pid].scope);
      rows := MarkUsed(rows, pid, singleUse, agentId, now);
    }

    // A revoked token can be presented at no time, before or after; who used it stays on
    // record, and no other token is affected.
    method Revoke(pid: PublicId, now: int) returns (found: bool)
      modifies this
      ensures found <==> pid in old(rows)
      ensures rows == RevokeToken(old(rows), pid, now)
      ensures forall t :: !Presentable(rows, pid, t)
      ensures found ==> rows[pid] == old(rows)[pid].(revokedAt := Some(now))
      ensures forall p, t :: p != pid ==> (Presentable(rows, p, t) <==> Presentable(old(rows), p, t))
    {
      found := pid in rows;
      if found {
        rows := rows[pid := rows[pid].(revokedAt := Some(now))];
      }
    }
  }
}
