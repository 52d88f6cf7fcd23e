/**
 The daemon around the registrations table: starting up with a seed catalog, the
 operator's writes, the in-memory catalog the proxy reads, and what agents are shown.
 Operator writes are sequential.
 */
module RegistrationRuntime {
  import opened Prelude
  import opened Registrations

  // ---- The in-memory catalog -----------------------------------------------

  function LookupActive(catalog: Table, name: string): Option<Registration> {
    if name in catalog && !catalog[name].disabled then Some(catalog[name]) else None
  }

  // A tool of the configuration file; `credential` is whether its auth value, if it
  // declares one, looks present.
  datatype ConfigTool = ConfigTool(name: string, credential: Option<bool>)

  predicate IsActive(tool: ConfigTool) {
    tool.credential != Some(false)
  }

  // active_tools().find(..)
  function FindTool(tools: seq<ConfigTool>, name: string): (found: Option<ConfigTool>)
    ensures found.Some? <==> exists t <- tools :: IsActive(t) && t.name == name
    ensures found.Some? ==> found.value in tools && IsActive(found.value) && found.value.name == name
  {
    if tools == [] then None
    else if IsActive(tools[0]) && tools[0].name == name then Some(tools[0])
    else FindTool(tools[1..], name)
  }

  // The proxy's lookup: the catalog first, then the active tools of the configuration file.
  datatype ProxyTarget = FromCatalog(r: Registration) | FromConfig(tool: ConfigTool)

  function ResolveTarget(catalog: Table, configTools: seq<ConfigTool>, name: string): Option<ProxyTarget> {
    if LookupActive(catalog, name).Some? then Some(FromCatalog(LookupActive(catalog, name).value))
    else if FindTool(configTools, name).Some? then Some(FromConfig(FindTool(configTools, name).value))
    else None
  }

  datatype Identity = Identity(allowlist: Option<seq<string>>, denylist: Option<seq<string>>)

  predicate AllowsTool(id: Identity, name: string) {
    && !(id.denylist.Some? && name in id.denylist.value)
    && (id.allowlist.Some? ==> name in id.allowlist.value)
  }

  // A denied name is refused even if it is also allowed; without lists anything goes.
  lemma AllowsToolIff(id: Identity, name: string)
    ensures AllowsTool(id, name) <==>
            match (id.denylist, id.allowlist) {
              case (Some(denied), Some(allowed)) => name in allowed && name !in denied
              case (Some(denied), None) => name !in denied
              case (None, Some(allowed)) => name in allowed
              case (None, None) => true
            }
  {
  }

  datatype PublicEntry = PublicEntry(name: string, description: string)

  // `rows` is what SELECT .. WHERE kind = ? returns: each row of that kind once.
  ghost predicate IsListing(rows: seq<Registration>, t: Table, kind: Kind) {
    && (forall r <- rows :: r.name in t && t[r.name] == r && r.kind == kind)
    && (forall n <- t :: t[n].kind == kind ==> t[n] in rows)
    && (forall i, j :: 0 <= i < j < |rows| ==> rows[i].name != rows[j].name)
  }

  predicate Visible(r: Registration, id: Option<Identity>) {
    !r.disabled && (id.Some? ==> AllowsTool(id.value, r.name))
  }

  function ListPublic(rows: seq<Registration>, id: Option<Identity>): seq<PublicEntry> {
    if rows == [] then []
    else (if Visible(rows[0], id) then [PublicEntry(rows[0].name, rows[0].description)] else [])
         + ListPublic(rows[1..], id)
  }

  lemma {:induction false} ListPublicEntries(rows: seq<Registration>, id: Option<Identity>, p: PublicEntry)
    ensures p in ListPublic(rows, id) <==>
            exists r <- rows :: Visible(r, id) && p == PublicEntry(r.name, r.description)
  {
    if rows != [] {
      ListPublicEntries(rows[1..], id, p);
      if r :| r in rows[1..] && Visible(r, id) && p == PublicEntry(r.name, r.description) {
        assert r in rows;
      }
    }
  }

  // ---- The service, in place -----------------------------------------------

  class RegistrationService {
    var rows: Table
    var version: Option<string>
    var catalog: Table

    ghost function Db(): Database reads this {
      Database(rows, version)
    }

    constructor ()
      ensures rows == map[] && version == None && catalog == map[]
    {
      rows, version, catalog := map[], None, map[];
    }

    method LoadCatalog(seed: SeedCatalog, now: int) returns (result: SeedResult)
      modifies this`rows, this`version
      ensures (Db(), result) == ApplyCatalog(old(Db()), seed, now)
    {
      if version == Some(seed.version) {
        return Current;
      }
      if version.Some? && !Older(ParseVersion(version.value), ParseVersion(seed.version)) {
        return NotNewer;
      }
      for i := 0 to |seed.entries|
        invariant forall e <- seed.entries[..i] :: ValidEntry(e)
      {
        if !ValidEntry(seed.entries[i]) {
          return InvalidCatalog;
        }
        assert seed.entries[..i + 1] == seed.entries[..i] + [seed.entries[i]];
      }
      assert seed.entries[..|seed.entries|] == seed.entries;
      for i := 0 to |seed.entries|
        invariant version == old(version)
        invariant ApplyEntries(old(rows), seed.entries, now) == ApplyEntries(rows, seed.entries[i..], now)
      {
        var entry := seed.entries[i];
        assert seed.entries[i..][1..] == seed.entries[i + 1..];
        if Refused(rows, entry) {
          return KindChanged;
        }
        rows := ApplyEntry(rows, entry, now);
      }
      version := Some(seed.version);
      return Applied;
    }

    method BootstrapFromConfigTools(tools: seq<LegacyTool>, now: int)
      returns (inserted: nat, existing: nat, unsupported: nat)
      modifies this`rows
      ensures rows == ApplyLegacy(old(rows), tools, now)
      ensures inserted + existing + unsupported == |tools|
      ensures inserted == |rows| - |old(rows)|
    {
      inserted, existing, unsupported := 0, 0, 0;
      for i := 0 to |tools|
        invariant ApplyLegacy(old(rows), tools, now) == ApplyLegacy(rows, tools[i..], now)
        invariant inserted + existing + unsupported == i
        invariant inserted == |rows| - |old(rows)|
      {
        var tool := tools[i];
        assert tools[i..][1..] == tools[i + 1..];
        if tool.name in rows {
          existing := existing + 1;
          continue;
        }
        var auth;
        match tool.auth {
          case Absent => auth := Authless;
          case Translated(spec) => auth := spec;
          case Unsupported =>
            unsupported := unsupported + 1;
            continue;
        }
        ghost var before := rows;
        rows := Insert(rows, Registration(tool.name, Tool, tool.description, tool.upstream, auth, tool.settings,
                                          false, false, now, now));
        assert rows.Keys == before.Keys + {tool.name};
        inserted := inserted + 1;
      }
    }

    // `Catalog::from_repo`: row by row, in whatever order the table returns them.
    method RefreshRuntime()
      requires WellNamed(rows)
      modifies this`catalog
      ensures catalog == rows
    {
      var byName: Table := map[];
      var todo := rows.Keys;
      while todo != {}
        invariant todo <= rows.Keys
        invariant byName == map n | n in rows && n !in todo :: rows[n]
        decreases todo
      {
        var n :| n in todo;
        byName := byName[rows[n].name := rows[n]];
        todo := todo - {n};
      }
      catalog := byName;
    }

    method OpPut(kind: Kind, name: string, body: PutBody, now: int) returns (result: AdminResult)
      requires WellNamed(rows)
      modifies this`rows, this`catalog
      ensures WellNamed(rows) && (rows, result) == Put(old(rows), kind, name, body, now)
      ensures catalog == if result.Done? then rows else old(catalog)
    {
      if !ValidName(name) {
        return BadName;
      }
      if body.auth.None? && (kind.Tool? || kind.Model?) {
        return AuthRequired;
      }
      var auth := if body.auth.Some? then body.auth.value else Authless;
      var createdAt, disabled := now, false;
      if name in rows {
        if rows[name].kind != kind {
          return WrongKind;
        }
        createdAt, disabled := rows[name].createdAt, rows[name].disabled;
      }
      rows := Upsert(rows, Registration(name, kind, body.description, body.upstream, auth, body.settings,
                                        false, disabled, createdAt, now));
      RefreshRuntime();
      return Done;
    }

    method OpDelete(kind: Kind, name: string, now: int) returns (result: AdminResult)
      requires WellNamed(rows)
      modifies this`rows, this`catalog
      ensures WellNamed(rows) && (rows, result) == Remove(old(rows), kind, name, now)
      ensures catalog == if result.Done? then rows else old(catalog)
    {
      if name !in rows {
        return UnknownName;
      }
      if rows[name].kind != kind {
        return WrongKind;
      }
      if rows[name].seed {
        rows := SetDisabled(rows, name, true, now);
      } else {
        rows := Delete(rows, name);
      }
      RefreshRuntime();
      return Done;
    }

    method OpEnable(kind: Kind, name: string, now: int) returns (result: AdminResult)
      requires WellNamed(rows)
      modifies this`rows, this`catalog
      ensures WellNamed(rows) && (rows, result) == Enable(old(rows), kind, name, now)
      ensures catalog == if result.Done? then rows else old(catalog)
    {
      if name !in rows {
        return UnknownName;
      }
      if rows[name].kind != kind {
        return WrongKind;
      }
      rows := SetDisabled(rows, name, false, now);
      RefreshRuntime();
      return Done;
    }
  }

  // ---- Runs ----------------------------------------------------------------

  // History: `offered` lists the versions of the catalogs that loaded without error.
  datatype World = World(db: Database, catalog: Table, running: bool, offered: seq<string>)

  datatype Event =
    | Start(seed: Option<SeedCatalog>, tools: seq<LegacyTool>, now: int)
    | Stop
    | PutRow(kind: Kind, name: string, body: PutBody, now: int)
    | RemoveRow(kind: Kind, name: string, now: int)
    | EnableRow(kind: Kind, name: string, now: int)

  predicate Enabled(w: World, e: Event) {
    if e.Start? then !w.running else w.running
  }

  // A write refreshes the catalog only when it succeeded.
  function Write(w: World, result: (Table, AdminResult)): World {
    w.(db := w.db.(rows := result.0), catalog := if result.1.Done? then result.0 else w.catalog)
  }

  // Seed catalog, then legacy tools, then the in-memory catalog; a catalog that fails
  // to load aborts the start with whatever was written by then.
  function StartUp(w: World, seed: Option<SeedCatalog>, tools: seq<LegacyTool>, now: int): World {
    var (db, result) := if seed.Some? then ApplyCatalog(w.db, seed.value, now) else (w.db, Current);
    if !Accepted(result) then w.(db := db)
    else
      var rows := ApplyLegacy(db.rows, tools, now);
      World(db.(rows := rows), rows, true, w.offered + if seed.Some? then [seed.value.version] else [])
  }

  function Apply(w: World, e: Event): World
    requires Enabled(w, e)
  {
    match e
    case Start(seed, tools, now) => StartUp(w, seed, tools, now)
    case Stop => w.(running := false)
    case PutRow(kind, name, body, now) => Write(w, Put(w.db.rows, kind, name, body, now))
    case RemoveRow(kind, name, now) => Write(w, Remove(w.db.rows, kind, name, now))
    case EnableRow(kind, name, now) => Write(w, Enable(w.db.rows, kind, name, now))
  }

  predicate Admits(w: World, run: seq<Event>)
    decreases |run|
  {
    run == [] || (Enabled(w, run[0]) && Admits(Apply(w, run[0]), run[1..]))
  }

  function Exec(w: World, run: seq<Event>): World
    requires Admits(w, run)
    decreases |run|
  {
    if run == [] then w else Exec(Apply(w, run[0]), run[1..])
  }

  // A database no catalog was loaded into, and no daemon running on it.
  ghost predicate Initial(w: World) {
    WellNamed(w.db.rows) && w.db.version.None? && !w.running && w.offered == []
  }

  ghost predicate VersionIsMaximum(version: Option<string>, offered: seq<string>) {
    && (version.None? <==> offered == [])
    && (version.Some? ==>
          && version.value in offered
          && forall v <- offered :: !Older(ParseVersion(version.value), ParseVersion(v)))
  }

  ghost predicate Inv(w: World) {
    && WellNamed(w.db.rows)
    && (w.running ==> w.catalog == w.db.rows)
    && VersionIsMaximum(w.db.version, w.offered)
  }

  lemma OlderIsTransitive(a: Version, b: Version, c: Version)
    requires Older(a, b) && !Older(a, c)
    ensures !Older(b, c)
  {
  }

  // An accepted catalog leaves the recorded version at the maximum.
  lemma LoadKeepsMaximum(db: Database, seed: SeedCatalog, now: int, offered: seq<string>)
    requires VersionIsMaximum(db.version, offered) && Accepted(ApplyCatalog(db, seed, now).1)
    ensures VersionIsMaximum(ApplyCatalog(db, seed, now).0.version, offered + [seed.version])
  {
    hide ParseVersion, Older, ApplyEntries, ValidEntry;
    if ApplyCatalog(db, seed, now).1.Applied? && db.version.Some? {
      forall v <- offered ensures !Older(ParseVersion(seed.version), ParseVersion(v)) {
        OlderIsTransitive(ParseVersion(db.version.value), ParseVersion(seed.version), ParseVersion(v));
      }
    }
    OlderIsIrreflexive(ParseVersion(seed.version));
  }

  lemma OlderIsIrreflexive(v: Version)
    ensures !Older(v, v)
  {
  }

  lemma StartKeepsInv(w: World, seed: Option<SeedCatalog>, tools: seq<LegacyTool>, now: int)
    requires Inv(w) && !w.running
    ensures Inv(StartUp(w, seed, tools, now))
  {
    hide ApplyCatalog, ApplyLegacy, ParseVersion, Older;
    if seed.Some? {
      var (db, result) := ApplyCatalog(w.db, seed.value, now);
      CatalogRespectsRows(w.db, seed.value, now, "");
      LegacyOnlyAdds(db.rows, tools, now);
      if Accepted(result) {
        LoadKeepsMaximum(w.db, seed.value, now, w.offered);
      } else {
        RejectedKeepsVersion(w.db, seed.value, now);
      }
    } else {
      LegacyOnlyAdds(w.db.rows, tools, now);
      assert w.offered + [] == w.offered;
    }
  }

  lemma RejectedKeepsVersion(db: Database, seed: SeedCatalog, now: int)
    requires !Accepted(ApplyCatalog(db, seed, now).1)
    ensures ApplyCatalog(db, seed, now).0.version == db.version
  {
  }

  lemma WriteKeepsNames(t: Table, e: Event)
    requires WellNamed(t)
    ensures e.PutRow? ==> WellNamed(Put(t, e.kind, e.name, e.body, e.now).0)
    ensures e.RemoveRow? ==> WellNamed(Remove(t, e.kind, e.name, e.now).0)
    ensures e.EnableRow? ==> WellNamed(Enable(t, e.kind, e.name, e.now).0)
  {
    hide ValidName;
  }

  lemma StepKeepsInv(w: World, e: Event)
    requires Inv(w) && Enabled(w, e)
    ensures Inv(Apply(w, e))
  {
    hide VersionIsMaximum, StartUp, ValidName;
    if e.Start? {
      StartKeepsInv(w, e.seed, e.tools, e.now);
    } else {
      WriteKeepsNames(w.db.rows, e);
    }
  }

  lemma {:induction false} RunKeepsInv(w: World, run: seq<Event>)
    requires Inv(w) && Admits(w, run)
    ensures Inv(Exec(w, run))
    decreases |run|
  {
    if run != [] {
      StepKeepsInv(w, run[0]);
      RunKeepsInv(Apply(w, run[0]), run[1..]);
    }
  }

  // ---- The recorded version ------------------------------------------------

  // After any run the recorded version is one that was offered, and no offered one is
  // newer.
  lemma RecordedVersionIsMaximum(w: World, run: seq<Event>)
    requires Initial(w) && Admits(w, run)
    ensures VersionIsMaximum(Exec(w, run).db.version, Exec(w, run).offered)
  {
    RunKeepsInv(w, run);
  }

  // ---- The life of a row ---------------------------------------------------

  predicate Names(e: Event, n: string) {
    (e.PutRow? || e.RemoveRow? || e.EnableRow?) && e.name == n
  }

  // The step deletes row `n` for good.
  predicate Deletes(w: World, e: Event, n: string) {
    && e.RemoveRow? && e.name == n
    && n in w.db.rows && w.db.rows[n].kind == e.kind && !w.db.rows[n].seed
  }

  // What a step that does not delete row `n` keeps of it.
  ghost predicate Kept(w: World, e: Event, w': World, n: string) {
    && Persists(w.db.rows, w'.db.rows, n)
    && (n in w.db.rows && w.db.rows[n].disabled && !(e.EnableRow? && e.name == n) ==> w'.db.rows[n].disabled)
    && (n in w.db.rows && !w.db.rows[n].seed && !Names(e, n) ==> w'.db.rows[n] == w.db.rows[n])
  }

  lemma StepKeepsRow(w: World, e: Event, n: string)
    requires Inv(w) && Enabled(w, e) && !Deletes(w, e, n)
    ensures Kept(w, e, Apply(w, e), n)
  {
    if e.Start? {
      hide ApplyCatalog, ApplyLegacy;
      var (db, result) := if e.seed.Some? then ApplyCatalog(w.db, e.seed.value, e.now) else (w.db, Current);
      if e.seed.Some? {
        CatalogRespectsRows(w.db, e.seed.value, e.now, n);
      }
      LegacyOnlyAdds(db.rows, e.tools, e.now);
    } else {
      WriteKeepsRow(w, e, n);
    }
  }

  lemma WriteKeepsRow(w: World, e: Event, n: string)
    requires Inv(w) && Enabled(w, e) && !Deletes(w, e, n) && !e.Start?
    ensures Kept(w, e, Apply(w, e), n)
  {
    hide ValidName, VersionIsMaximum;
  }

  ghost predicate NeverDeletes(w: World, run: seq<Event>, n: string)
    requires Admits(w, run)
    decreases |run|
  {
    run == [] || (!Deletes(w, run[0], n) && NeverDeletes(Apply(w, run[0]), run[1..], n))
  }

  // Until it is deleted a row keeps its kind and creation time; it stays disabled until
  // it is enabled; and an operator's row is changed by nothing but a write to it.
  lemma {:induction false} RowHistory(w: World, run: seq<Event>, n: string)
    requires Inv(w) && Admits(w, run) && NeverDeletes(w, run, n) && n in w.db.rows
    ensures var rows, rows' := w.db.rows, Exec(w, run).db.rows;
            && Persists(rows, rows', n)
            && (rows[n].disabled && (forall e <- run :: !(e.EnableRow? && e.name == n)) ==> rows'[n].disabled)
            && (!rows[n].seed && (forall e <- run :: !Names(e, n)) ==> rows'[n] == rows[n])
    decreases |run|
  {
    hide Apply, Inv;
    if run != [] {
      assert run[0] in run && forall e <- run[1..] :: e in run;
      StepKeepsInv(w, run[0]);
      StepKeepsRow(w, run[0], n);
      RowHistory(Apply(w, run[0]), run[1..], n);
    }
  }

  // A start takes the seed catalog first: a new name that both the catalog and the
  // configuration file offer becomes the catalog's, and one that only the file offers the
  // operator's. A start without a catalog loads the file alone.
  lemma SeedTakesPrecedence(w: World, seed: SeedCatalog, tools: seq<LegacyTool>, now: int, n: string)
    requires Inv(w) && Enabled(w, Start(Some(seed), tools, now)) && n !in w.db.rows
    requires ApplyCatalog(w.db, seed, now).1.Applied? && exists e <- seed.entries :: e.name == n
    ensures var w' := Apply(w, Start(Some(seed), tools, now));
            && w'.running && w'.catalog == w'.db.rows && w'.db.version == Some(seed.version)
            && n in w'.db.rows && w'.db.rows[n].seed && Carries(w'.db.rows[n], LastNamed(seed.entries, n))
    ensures Apply(w, Start(None, tools, now)).running
    ensures Apply(w, Start(None, tools, now)).db == w.db.(rows := ApplyLegacy(w.db.rows, tools, now))
  {
    hide ParseVersion, ValidEntry, VersionIsMaximum;
    CatalogRespectsRows(w.db, seed, now, n);
    LoadInstallsEntries(w.db.rows, seed.entries, now, n);
    LegacyOnlyAdds(ApplyCatalog(w.db, seed, now).0.rows, tools, now);
  }

  // What an operator's write asked for is what the table holds from then on: no later
  // start, seed upgrade or write to another row changes it.
  lemma PutSurvivesUpgrades(w: World, kind: Kind, n: string, body: PutBody, now: int, rest: seq<Event>)
    requires Inv(w) && w.running && Put(w.db.rows, kind, n, body, now).1.Done?
    requires Admits(Write(w, Put(w.db.rows, kind, n, body, now)), rest)
    requires forall e <- rest :: !Names(e, n)
    ensures var rows := w.db.rows;
            var rows' := Exec(Write(w, Put(rows, kind, n, body, now)), rest).db.rows;
            && n in rows'
            && rows'[n].kind == kind && !rows'[n].seed
            && rows'[n].description == body.description && rows'[n].upstream == body.upstream
            && rows'[n].settings == body.settings
            && rows'[n].auth == (if body.auth.Some? then body.auth.value else Authless)
            && rows'[n].disabled == (n in rows && rows[n].disabled)
            && rows'[n].createdAt == if n in rows then rows[n].createdAt else now
  {
    var e := PutRow(kind, n, body, now);
    var w' := Write(w, Put(w.db.rows, kind, n, body, now));
    assert Enabled(w, e) && Apply(w, e) == w';
    StepKeepsInv(w, e);
    UnnamedNeverDeleted(w', rest, n);
    RowHistory(w', rest, n);
  }

  lemma {:induction false} UnnamedNeverDeleted(w: World, run: seq<Event>, n: string)
    requires Admits(w, run) && forall e <- run :: !Names(e, n)
    ensures NeverDeletes(w, run, n)
    decreases |run|
  {
    hide Apply, Enabled;
    if run != [] {
      assert !Names(run[0], n);
      UnnamedNeverDeleted(Apply(w, run[0]), run[1..], n);
    }
  }

  // Removing an operator's row deletes it, and only it; the name is free for a new row of
  // any kind, which starts over enabled and as of then.
  lemma RemoveFreesName(t: Table, kind: Kind, n: string, now: int, next: Kind, body: PutBody, later: int)
    requires WellNamed(t) && n in t && !t[n].seed && t[n].kind == kind
    requires ValidName(n) && (body.auth.Some? || next.Infra?)
    ensures var (gone, r) := Remove(t, kind, n, now);
            var (again, r') := Put(gone, next, n, body, later);
            && r.Done? && gone == t - {n}
            && r'.Done? && n in again && again - {n} == t - {n}
            && again[n].kind == next && !again[n].disabled && again[n].createdAt == later
  {
    hide ValidName;
  }

  // Every refusal leaves the table alone, and which one it is.
  lemma RefusedWrites(t: Table, kind: Kind, n: string, body: PutBody, now: int)
    ensures var (t', r) := Put(t, kind, n, body, now);
            && (r.Done? <==> ValidName(n) && (body.auth.Some? || kind.Infra?) && (n in t ==> t[n].kind == kind))
            && (r.BadName? <==> !ValidName(n))
            && (r.AuthRequired? <==> ValidName(n) && body.auth.None? && !kind.Infra?)
            && (!r.Done? ==> t' == t)
    ensures var (t', r) := Remove(t, kind, n, now);
            && (r.Done? <==> n in t && t[n].kind == kind)
            && (r.UnknownName? <==> n !in t)
            && (!r.Done? ==> t' == t)
    ensures var (t', r) := Enable(t, kind, n, now);
            && (r.Done? <==> n in t && t[n].kind == kind)
            && (r.UnknownName? <==> n !in t)
            && (!r.Done? ==> t' == t)
  {
    hide ValidName;
  }

  // Removing a seed row and enabling it again gives the row back, and the proxy sees it
  // disappear and return.
  lemma EnableUndoesRemove(t: Table, kind: Kind, n: string, now: int, later: int)
    requires WellNamed(t) && n in t && t[n].seed && !t[n].disabled && t[n].kind == kind
    ensures var (gone, r) := Remove(t, kind, n, now);
            var (back, r') := Enable(gone, kind, n, later);
            && r.Done? && r'.Done?
            && LookupActive(t, n).Some? && LookupActive(gone, n).None?
            && back == t[n := t[n].(updatedAt := later)]
  {
    var gone := Remove(t, kind, n, now).0;
    assert Enable(gone, kind, n, later).0 == t[n := t[n].(updatedAt := later)];
  }

  // ---- What the proxy and the agents see -----------------------------------

  // While the daemon runs, the proxy finds exactly the enabled rows of the table.
  lemma CatalogAgreesWithTable(w: World, run: seq<Event>, n: string)
    requires Initial(w) && Admits(w, run) && Exec(w, run).running
    ensures var w' := Exec(w, run);
            && w'.catalog == w'.db.rows
            && LookupActive(w'.catalog, n) ==
                 if n in w'.db.rows && !w'.db.rows[n].disabled then Some(w'.db.rows[n]) else None
  {
    RunKeepsInv(w, run);
  }

  // An agent is shown exactly the enabled rows of a kind that its ACL admits, and each
  // of them resolves through the catalog.
  lemma PublicListIsUsable(w: World, run: seq<Event>, kind: Kind, rows: seq<Registration>, id: Option<Identity>,
                           p: PublicEntry, configTools: seq<ConfigTool>)
    requires Initial(w) && Admits(w, run) && Exec(w, run).running
    requires IsListing(rows, Exec(w, run).db.rows, kind)
    ensures var found := LookupActive(Exec(w, run).catalog, p.name);
            p in ListPublic(rows, id) <==>
              && found.Some? && found.value.kind == kind && found.value.description == p.description
              && (id.Some? ==> AllowsTool(id.value, p.name))
    ensures p in ListPublic(rows, id) ==>
              var target := ResolveTarget(Exec(w, run).catalog, configTools, p.name);
              target.Some? && target.value.FromCatalog? && target.value.r.name == p.name
  {
    RunKeepsInv(w, run);
    ListPublicEntries(rows, id, p);
  }

  // A disabled registration is still proxied exactly when the configuration file has an
  // active tool of the same name: the fallback does not look at the table.
  lemma DisabledStillResolves(w: World, run: seq<Event>, n: string, configTools: seq<ConfigTool>)
    requires Initial(w) && Admits(w, run) && Exec(w, run).running
    requires n in Exec(w, run).db.rows && Exec(w, run).db.rows[n].disabled
    ensures ResolveTarget(Exec(w, run).catalog, configTools, n).Some? <==>
            exists t <- configTools :: t.name == n && (t.credential.None? || t.credential.value)
  {
    RunKeepsInv(w, run);
    assert forall t <- configTools :: IsActive(t) <==> t.credential.None? || t.credential.value;
  }

  lemma TwoSteps(w: World, e: Event, f: Event) returns (run: seq<Event>)
    requires Enabled(w, e) && Enabled(Apply(w, e), f)
    ensures run == [e, f] && Admits(w, run) && Exec(w, run) == Apply(Apply(w, e), f)
  {
    hide Apply, Enabled;
    run := [e, f];
    assert run[1..] == [f] && [f][1..] == [];
    assert Admits(Apply(w, e), [f]);
    assert Exec(Apply(w, e), [f]) == Exec(Apply(Apply(w, e), f), []);
  }

  // Such a state comes about for every name: a catalog with one tool, which an operator
  // then removes.
  lemma DisabledIsReachable(n: string) returns (w: World, run: seq<Event>)
    requires ValidName(n)
    ensures Initial(w) && Admits(w, run) && Exec(w, run).running
    ensures n in Exec(w, run).db.rows && Exec(w, run).db.rows[n].disabled
  {
    hide ValidName, ParseVersion;
    var entry := SeedEntry(n, Tool, "", "", Some(Authless), "");
    w := World(Database(map[], None), map[], false, []);
    var start := Start(Some(SeedCatalog("1.0.0", [entry])), [], 0);
    var rows := OneEntryLoads(entry);
    assert Apply(w, start).db.rows == rows && Apply(w, start).running;
    run := TwoSteps(w, start, RemoveRow(Tool, n, 0));
  }

  lemma OneEntryLoads(entry: SeedEntry) returns (rows: Table)
    requires ValidEntry(entry)
    ensures rows == map[entry.name := FromEntry(entry, 0)]
    ensures ApplyCatalog(Database(map[], None), SeedCatalog("1.0.0", [entry]), 0) ==
            (Database(rows, Some("1.0.0")), Applied)
  {
    rows := map[entry.name := FromEntry(entry, 0)];
    assert [entry][1..] == [];
    assert ApplyEntry(map[], entry, 0) == rows;
    assert ApplyEntries(rows, [], 0) == (rows, true);
  }
}
