/**
 The `oauth_sessions` table. A session is stored under `(name, session_label)`; every
 SQL statement of the repository is one function on the table, and the class at
 the end runs those statements in place.

 Token values are held in the clear: AES-GCM sealing is an inverse pair on the
 way in and out. `claim` stands for the account-id claim of an access token.
 `generation` is a history variable: it names the INSERT a row came from.
 */
module OauthTable {
  import opened Prelude

  datatype Key = Key(name: string, sessionLabel: string)

  datatype Session = Session(
    refresh: string,
    access: Option<string>,
    expires: Option<int>,
    degraded: bool,
    account: Option<string>,
    createdAt: int,
    updatedAt: int,
    generation: nat)

  type Claim = string -> Option<string>
  type Table = map<Key, Session>

  // What the token endpoint grants; `expires` is the absolute expiry that the
  // caller derives from `expires_in`.
  datatype Grant = Grant(access: string, expires: int, refresh: Option<string>)

  function AccountOf(claim: Claim, access: Option<string>): Option<string> {
    match access
    case None => None
    case Some(token) => claim(token)
  }

  function NewSession(claim: Claim, refresh: string, access: Option<string>, expires: Option<int>,
                      now: int, generation: nat): Session
  {
    Session(refresh, access, expires, false, AccountOf(claim, access), now, now, generation)
  }

  // The row `update_tokens` leaves; it also clears `degraded`.
  function Refreshed(claim: Claim, s: Session, grant: Grant, now: int): Session {
    s.(access := Some(grant.access),
       expires := Some(grant.expires),
       account := claim(grant.access),
       refresh := if grant.refresh.Some? then grant.refresh.value else s.refresh,
       degraded := false,
       updatedAt := now)
  }

  function UpdateTokens(claim: Claim, t: Table, k: Key, grant: Grant, now: int): Table {
    if k in t then t[k := Refreshed(claim, t[k], grant, now)] else t
  }

  function MarkDegraded(t: Table, k: Key, now: int): Table {
    if k in t then t[k := t[k].(degraded := true, updatedAt := now)] else t
  }

  function Delete(t: Table, k: Key): Table {
    t - {k}
  }

  // An access token is cached together with its expiry and its own account id.
  ghost predicate Coherent(claim: Claim, s: Session) {
    && (s.access.Some? <==> s.expires.Some?)
    && s.account == AccountOf(claim, s.access)
  }

  class OauthSessionRepository {
    const claim: Claim
    var rows: Table
    var inserted: nat

    ghost predicate Valid() reads this {
      forall k <- rows ::
        && rows[k].account == AccountOf(claim, rows[k].access)
        && rows[k].generation < inserted
    }

    ghost predicate Coherence() reads this {
      forall k <- rows :: Coherent(claim, rows[k])
    }

    constructor (claim: Claim)
      ensures Valid() && Coherence() && rows == map[] && this.claim == claim
    {
      this.claim := claim;
      rows, inserted := map[], 0;
    }

    // INSERT: a second row under the same key is a conflict and changes nothing.
    method Create(k: Key, refresh: string, access: Option<string>, expires: Option<int>, now: int)
      returns (created: Option<Session>)
      requires Valid()
      modifies this
      ensures Valid()
      ensures old(Coherence()) && (access.Some? <==> expires.Some?) ==> Coherence()
      ensures created.None? <==> k in old(rows)
      ensures created.None? ==> rows == old(rows)
      ensures created.Some? ==>
                && rows == old(rows)[k := created.value]
                && created.value.refresh == refresh && created.value.access == access
                && created.value.expires == expires && !created.value.degraded
                && created.value.account == AccountOf(claim, access)
                && created.value.createdAt == created.value.updatedAt == now
                && forall j <- old(rows) :: old(rows)[j].generation != created.value.generation
    {
      if k in rows {
        return None;
      }
      var s := NewSession(claim, refresh, access, expires, now, inserted);
      rows, inserted := rows[k := s], inserted + 1;
      return Some(s);
    }

    method Update(k: Key, grant: Grant, now: int)
      requires Valid()
      modifies this`rows
      ensures Valid() && (old(Coherence()) ==> Coherence())
      ensures rows == UpdateTokens(claim, old(rows), k, grant, now)
      ensures rows.Keys == old(rows).Keys && forall j <- rows :: j != k ==> rows[j] == old(rows)[j]
      ensures k in rows ==>
                var s, s' := old(rows)[k], rows[k];
                && s'.access == Some(grant.access) && s'.expires == Some(grant.expires)
                && s'.refresh == (if grant.refresh.Some? then grant.refresh.value else s.refresh)
                && s'.account == claim(grant.access) && !s'.degraded
                && s'.createdAt == s.createdAt && s'.updatedAt == now && s'.generation == s.generation
    {
      if k in rows {
        rows := rows[k := Refreshed(claim, rows[k], grant, now)];
      }
    }

    method Degrade(k: Key, now: int)
      requires Valid()
      modifies this`rows
      ensures Valid() && (old(Coherence()) ==> Coherence())
      ensures rows == MarkDegraded(old(rows), k, now)
      ensures rows.Keys == old(rows).Keys && forall j <- rows :: j != k ==> rows[j] == old(rows)[j]
      ensures k in rows ==> rows[k].degraded && rows[k] == old(rows)[k].(degraded := true, updatedAt := now)
    {
      if k in rows {
        rows := rows[k := rows[k].(degraded := true, updatedAt := now)];
      }
    }

    method Get(k: Key) returns (found: Option<Session>)
      requires Valid()
      ensures found.Some? <==> k in rows
      ensures found.Some? ==> found.value == rows[k]
    {
      found := if k in rows then Some(rows[k]) else None;
    }

    method Remove(k: Key) returns (removed: bool)
      requires Valid()
      modifies this`rows
      ensures Valid() && (old(Coherence()) ==> Coherence())
      ensures rows == Delete(old(rows), k)
      ensures k !in rows && forall j <- old(rows) :: j != k ==> j in rows && rows[j] == old(rows)[j]
      ensures removed <==> k in old(rows)
    {
      removed := k in rows;
      rows := rows - {k};
    }
  }
}
