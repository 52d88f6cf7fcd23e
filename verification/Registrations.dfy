/**
 The registrations table: the SQL statements, the seed loader, the legacy bootstrap
 and the operator's writes. Each is a function on the table; the class below runs
 them in place, entry by entry.

 `settings` stands for the columns no decision depends on: egress, timeouts, body
 limit and metadata.
 */
module Registrations {
  import opened Prelude

  datatype Kind = Model | Tool | Infra

  datatype AuthSpec = Authless | Spec(text: string)

  datatype Registration = Registration(
    name: string,
    kind: Kind,
    description: string,
    upstream: string,
    auth: AuthSpec,
    settings: string,
    seed: bool,
    disabled: bool,
    createdAt: int,
    updatedAt: int)

  type Table = map<string, Registration>

  ghost predicate WellNamed(t: Table) {
    forall n <- t :: t[n].name == n
  }

  // ---- SQL statements ------------------------------------------------------

  // INSERT, for a name that is not taken.
  function Insert(t: Table, r: Registration): Table
    requires r.name !in t
  {
    t[r.name := r]
  }

  // INSERT .. ON CONFLICT(name) DO UPDATE, which sets neither `kind` nor `created_at`.
  function Upsert(t: Table, r: Registration): Table {
    if r.name in t then t[r.name := r.(kind := t[r.name].kind, createdAt := t[r.name].createdAt)]
    else t[r.name := r]
  }

  function SetDisabled(t: Table, name: string, disabled: bool, now: int): Table {
    if name in t then t[name := t[name].(disabled := disabled, updatedAt := now)] else t
  }

  function Delete(t: Table, name: string): Table {
    t - {name}
  }

  // ---- Names and versions --------------------------------------------------

  const RESERVED_NAMES := ["livez", "readyz", "version", "health", "skill", "tools", "models", "admin", "api",
                           "metrics", "audit"]

  predicate ValidName(name: string) {
    && 1 <= |name| <= 64
    && (forall c <- name :: 'a' <= c <= 'z' || '0' <= c <= '9' || c == '-')
    && name !in RESERVED_NAMES
  }

  // split('.')
  function Parts(s: string): (r: seq<string>)
    ensures |r| >= 1
  {
    if s == "" then [""]
    else
      var rest := Parts(s[1..]);
      if s[0] == '.' then [""] + rest else [[s[0]] + rest[0]] + rest[1..]
  }

  function Digits(s: string, acc: nat): Option<nat> {
    if s == "" then Some(acc)
    else if '0' <= s[0] <= '9' then Digits(s[1..], acc * 10 + (s[0] as int - '0' as int))
    else None
  }

  // parse::<u64>().unwrap_or(0): an optional `+`, decimal digits, no overflow.
  function Component(s: string): nat {
    var digits := if s != "" && s[0] == '+' then s[1..] else s;
    var n := if digits == "" then None else Digits(digits, 0);
    if n.Some? && n.value <= U64_MAX then n.value else 0
  }

  datatype Version = Version(major: nat, minor: nat, patch: nat)

  function ParseVersion(s: string): Version {
    var parts := Parts(s);
    Version(Component(parts[0]),
            if |parts| > 1 then Component(parts[1]) else 0,
            if |parts| > 2 then Component(parts[2]) else 0)
  }

  predicate Older(a: Version, b: Version) {
    || a.major < b.major
    || (a.major == b.major && a.minor < b.minor)
    || (a.major == b.major && a.minor == b.minor && a.patch < b.patch)
  }

  // ---- The seed loader -----------------------------------------------------

  datatype SeedEntry = SeedEntry(name: string, kind: Kind, description: string, upstream: string,
                                 auth: Option<AuthSpec>, settings: string)

  datatype SeedCatalog = SeedCatalog(version: string, entries: seq<SeedEntry>)

  // Only infrastructure entries may leave `auth` out.
  predicate ValidEntry(e: SeedEntry) {
    ValidName(e.name) && (e.auth.Some? || e.kind.Infra?)
  }

  function FromEntry(e: SeedEntry, now: int): Registration {
    Registration(e.name, e.kind, e.description, e.upstream, if e.auth.Some? then e.auth.value else Authless,
                 e.settings, true, false, now, now)
  }

  // An operator's row is left alone; a kind change is refused; an upgrade keeps
  // `created_at` and `disabled`.
  predicate Refused(t: Table, e: SeedEntry) {
    e.name in t && t[e.name].seed && t[e.name].kind != e.kind
  }

  function ApplyEntry(t: Table, e: SeedEntry, now: int): Table
    requires !Refused(t, e)
  {
    if e.name !in t then Insert(t, FromEntry(e, now))
    else if !t[e.name].seed then t
    else Upsert(t, FromEntry(e, now).(createdAt := t[e.name].createdAt, disabled := t[e.name].disabled))
  }

  // Entries in order; the first refused one stops the loader where it stands.
  function ApplyEntries(t: Table, entries: seq<SeedEntry>, now: int): (Table, bool)
    decreases |entries|
  {
    if entries == [] then (t, true)
    else if Refused(t, entries[0]) then (t, false)
    else ApplyEntries(ApplyEntry(t, entries[0], now), entries[1..], now)
  }

  datatype SeedResult = Applied | Current | NotNewer | InvalidCatalog | KindChanged

  datatype Database = Database(rows: Table, version: Option<string>)

  predicate Accepted(r: SeedResult) {
    r.Applied? || r.Current? || r.NotNewer?
  }

  function ApplyCatalog(db: Database, catalog: SeedCatalog, now: int): (Database, SeedResult) {
    if db.version == Some(catalog.version) then (db, Current)
    else if db.version.Some? && !Older(ParseVersion(db.version.value), ParseVersion(catalog.version)) then
      (db, NotNewer)
    else if exists e <- catalog.entries :: !ValidEntry(e) then (db, InvalidCatalog)
    else
      var (rows, ok) := ApplyEntries(db.rows, catalog.entries, now);
      if ok then (Database(rows, Some(catalog.version)), Applied) else (db.(rows := rows), KindChanged)
  }

  // ---- The legacy bootstrap ------------------------------------------------

  // `auth` is what the configured auth translates to; `Unsupported` shapes are skipped.
  datatype LegacyAuth = Absent | Translated(spec: AuthSpec) | Unsupported

  datatype LegacyTool = LegacyTool(name: string, description: string, upstream: string, auth: LegacyAuth,
                                   settings: string)

  function ApplyLegacyTool(t: Table, tool: LegacyTool, now: int): Table {
    if tool.name in t || tool.auth.Unsupported? then t
    else
      var auth := if tool.auth.Absent? then Authless else tool.auth.spec;
      Insert(t, Registration(tool.name, Tool, tool.description, tool.upstream, auth, tool.settings,
                             false, false, now, now))
  }

  function ApplyLegacy(t: Table, tools: seq<LegacyTool>, now: int): Table
    decreases |tools|
  {
    if tools == [] then t else ApplyLegacy(ApplyLegacyTool(t, tools[0], now), tools[1..], now)
  }

  // ---- Operator writes -----------------------------------------------------

  datatype PutBody = PutBody(description: string, upstream: string, auth: Option<AuthSpec>, settings: string)

  datatype AdminResult = Done | BadName | AuthRequired | WrongKind | UnknownName

  function Put(t: Table, kind: Kind, name: string, body: PutBody, now: int): (Table, AdminResult) {
    if !ValidName(name) then (t, BadName)
    else if body.auth.None? && !kind.Infra? then (t, AuthRequired)
    else if name in t && t[name].kind != kind then (t, WrongKind)
    else
      var (createdAt, disabled) := if name in t then (t[name].createdAt, t[name].disabled) else (now, false);
      (Upsert(t, Registration(name, kind, body.description, body.upstream,
                              if body.auth.Some? then body.auth.value else Authless, body.settings,
                              false, disabled, createdAt, now)), Done)
  }

  // A seed row is disabled, an operator's row is deleted.
  function Remove(t: Table, kind: Kind, name: string, now: int): (Table, AdminResult) {
    if name !in t then (t, UnknownName)
    else if t[name].kind != kind then (t, WrongKind)
    else if t[name].seed then (SetDisabled(t, name, true, now), Done)
    else (Delete(t, name), Done)
  }

  function Enable(t: Table, kind: Kind, name: string, now: int): (Table, AdminResult) {
    if name !in t then (t, UnknownName)
    else if t[name].kind != kind then (t, WrongKind)
    else (SetDisabled(t, name, false, now), Done)
  }

  // ---- What an upsert can change -------------------------------------------

  // An existing row keeps its kind and age whatever is passed, and takes everything else; a
  // new row is what is passed; no other row changes.
  lemma UpsertKeepsKindAndAge(t: Table, r: Registration)
    ensures var t' := Upsert(t, r);
            && r.name in t' && t' - {r.name} == t - {r.name}
            && (r.name !in t ==> t'[r.name] == r)
            && (r.name in t ==>
                  && t'[r.name].kind == t[r.name].kind && t'[r.name].createdAt == t[r.name].createdAt
                  && t'[r.name].description == r.description && t'[r.name].upstream == r.upstream
                  && t'[r.name].auth == r.auth && t'[r.name].settings == r.settings && t'[r.name].seed == r.seed
                  && t'[r.name].disabled == r.disabled && t'[r.name].updatedAt == r.updatedAt)
  {
  }

  // ---- Versions ------------------------------------------------------------

  // The order on versions: a higher patch, minor or major number is newer, whatever the
  // numbers after it, and of two versions one is older or they are equal.
  lemma VersionOrder(u: Version, v: Version, w: Version, minor: nat, patch: nat)
    ensures Older(v, v.(patch := v.patch + 1 + patch))
    ensures Older(v, Version(v.major, v.minor + 1 + minor, patch))
    ensures Older(v, Version(v.major + 1, minor, patch))
    ensures !Older(v, v)
    ensures Older(u, v) && Older(v, w) ==> Older(u, w)
    ensures Older(u, v) || Older(v, u) || u == v
    ensures !(Older(u, v) && Older(v, u))
  {
  }

  // Decimal numerals.
  function Numeral(n: nat): string {
    (if n < 10 then "" else Numeral(n / 10)) + [('0' as int + n % 10) as char]
  }

  lemma {:induction false} DigitsOfAppend(s: string, c: char, acc: nat)
    requires '0' <= c <= '9' && Digits(s, acc).Some?
    ensures Digits(s + [c], acc) == Some(Digits(s, acc).value * 10 + (c as int - '0' as int))
    decreases |s|
  {
    if s == "" {
      assert (s + [c])[1..] == "";
    } else {
      assert (s + [c])[1..] == s[1..] + [c];
      DigitsOfAppend(s[1..], c, acc * 10 + (s[0] as int - '0' as int));
    }
  }

  lemma {:induction false} DigitsOfNumeral(n: nat)
    ensures Digits(Numeral(n), 0) == Some(n) && Numeral(n) != ""
    ensures forall c <- Numeral(n) :: '0' <= c <= '9'
  {
    var front, c := if n < 10 then "" else Numeral(n / 10), ('0' as int + n % 10) as char;
    if n >= 10 {
      DigitsOfNumeral(n / 10);
    }
    DigitsOfAppend(front, c, 0);
  }

  lemma {:induction false} PartsOfJoin(s: string, t: string)
    requires '.' !in s
    ensures Parts(s) == [s]
    ensures Parts(s + "." + t) == [s] + Parts(t)
    decreases |s|
  {
    var whole := s + "." + t;
    if s == "" {
      assert whole[1..] == t;
    } else {
      assert whole[1..] == s[1..] + "." + t;
      PartsOfJoin(s[1..], t);
      assert [s[0]] + s[1..] == s;
    }
  }

  lemma ComponentOfNumeral(n: nat)
    requires n <= U64_MAX
    ensures Component(Numeral(n)) == n && '.' !in Numeral(n)
  {
    DigitsOfNumeral(n);
    assert Numeral(n)[0] in Numeral(n);
  }

  // Three numerals joined by dots read as those three numbers.
  lemma ParseVersionOfNumerals(v: Version)
    requires v.major <= U64_MAX && v.minor <= U64_MAX && v.patch <= U64_MAX
    ensures ParseVersion(Numeral(v.major) + "." + (Numeral(v.minor) + "." + Numeral(v.patch))) == v
  {
    hide Numeral, Component, Parts;
    ComponentOfNumeral(v.major);
    ComponentOfNumeral(v.minor);
    ComponentOfNumeral(v.patch);
    PartsOfJoin(Numeral(v.patch), "");
    PartsOfJoin(Numeral(v.minor), Numeral(v.patch));
    PartsOfJoin(Numeral(v.major), Numeral(v.minor) + "." + Numeral(v.patch));
  }

  // A catalog is loaded, and its version recorded, exactly when its version is newer than
  // the recorded one, if any, all its entries are valid and none is refused on the way. One
  // that is not newer changes nothing, nor does one with an invalid entry.
  lemma AppliedIffNewer(db: Database, catalog: SeedCatalog, now: int)
    ensures var (db', result) := ApplyCatalog(db, catalog, now);
            var newer := db.version.None? || Older(ParseVersion(db.version.value), ParseVersion(catalog.version));
            var valid := forall e <- catalog.entries :: ValidEntry(e);
            var (rows, complete) := ApplyEntries(db.rows, catalog.entries, now);
            && (result.Applied? <==> newer && valid && complete)
            && (result.Applied? ==> db' == Database(rows, Some(catalog.version)))
            && (result.InvalidCatalog? <==> newer && !valid)
            && (result.KindChanged? <==> newer && valid && !complete)
            && (result.KindChanged? ==> db' == Database(rows, db.version))
            && (!newer || !valid ==> db' == db)
            && (result.Current? <==> db.version == Some(catalog.version))
  {
    hide ValidEntry, ParseVersion, ApplyEntries;
  }

  // Which entries are valid, and which names.
  lemma ValidEntryIff(e: SeedEntry)
    ensures ValidEntry(e) <==>
            && 0 < |e.name| <= 64
            && (forall i :: 0 <= i < |e.name| ==>
                  'a' <= e.name[i] <= 'z' || '0' <= e.name[i] <= '9' || e.name[i] == '-')
            && e.name != "livez" && e.name != "readyz" && e.name != "version" && e.name != "health"
            && e.name != "skill" && e.name != "tools" && e.name != "models" && e.name != "admin"
            && e.name != "api" && e.name != "metrics" && e.name != "audit"
            && !(e.auth.None? && (e.kind.Model? || e.kind.Tool?))
  {
    assert forall i :: 0 <= i < |e.name| ==> e.name[i] in e.name;
  }

  // ---- What loading leaves alone -------------------------------------------

  // Row `n` is still there, of the same kind and age.
  ghost predicate Persists(t: Table, t': Table, n: string) {
    n in t ==> n in t' && t'[n].kind == t[n].kind && t'[n].createdAt == t[n].createdAt
  }

  // The row is the operator's and untouched, or it keeps its `disabled` flag.
  ghost predicate LoadRespects(t: Table, t': Table, n: string) {
    && Persists(t, t', n)
    && (n in t ==> t'[n].disabled == t[n].disabled)
    && (n in t && !t[n].seed ==> t'[n] == t[n])
  }

  // Even a load that stops midway changes no operator row, no kind, no creation time
  // and no disabled flag.
  lemma {:induction false} EntriesRespectRows(t: Table, entries: seq<SeedEntry>, now: int, n: string)
    requires WellNamed(t)
    ensures LoadRespects(t, ApplyEntries(t, entries, now).0, n) && WellNamed(ApplyEntries(t, entries, now).0)
    decreases |entries|
  {
    if entries != [] && !Refused(t, entries[0]) {
      EntriesRespectRows(ApplyEntry(t, entries[0], now), entries[1..], now, n);
    }
  }

  lemma CatalogRespectsRows(db: Database, catalog: SeedCatalog, now: int, n: string)
    requires WellNamed(db.rows)
    ensures var db' := ApplyCatalog(db, catalog, now).0;
            LoadRespects(db.rows, db'.rows, n) && WellNamed(db'.rows)
  {
    EntriesRespectRows(db.rows, catalog.entries, now, n);
  }

  // After a full load every entry is in the table: as the operator's own row, or as a seed
  // row that carries the last entry of that name, enabled and as of now if it is new.
  lemma {:induction false} LoadInstallsEntries(t: Table, entries: seq<SeedEntry>, now: int, n: string)
    requires WellNamed(t) && ApplyEntries(t, entries, now).1 && exists e <- entries :: e.name == n
    ensures var t' := ApplyEntries(t, entries, now).0;
            && n in t'
            && (n in t && !t[n].seed ==> t'[n] == t[n])
            && (n !in t || t[n].seed ==>
                  t'[n].seed && t'[n].updatedAt == now && Carries(t'[n], LastNamed(entries, n)))
            && (n !in t ==> !t'[n].disabled && t'[n].createdAt == now)
    decreases |entries|
  {
    var next, rest := ApplyEntry(t, entries[0], now), entries[1..];
    EntriesRespectRows(t, [], now, n);
    EntriesRespectRows(next, rest, now, n);
    if exists e <- rest :: e.name == n {
      LoadInstallsEntries(next, rest, now, n);
    } else {
      EntriesFrame(next, rest, now, n);
      assert n !in t || t[n].seed ==> Carries(next[n], entries[0]);
    }
  }

  function LastNamed(entries: seq<SeedEntry>, n: string): (e: SeedEntry)
    requires exists e <- entries :: e.name == n
    ensures e in entries && e.name == n
  {
    if exists e <- entries[1..] :: e.name == n then LastNamed(entries[1..], n) else entries[0]
  }

  ghost predicate Carries(r: Registration, e: SeedEntry) {
    r.name == e.name && r.kind == e.kind && r.description == e.description && r.upstream == e.upstream
    && r.settings == e.settings && r.auth == (if e.auth.Some? then e.auth.value else Authless)
  }

  // The loader touches no row but those its entries name.
  lemma {:induction false} EntriesFrame(t: Table, entries: seq<SeedEntry>, now: int, n: string)
    requires forall e <- entries :: e.name != n
    ensures var t' := ApplyEntries(t, entries, now).0;
            (n in t' <==> n in t) && (n in t ==> t'[n] == t[n])
    decreases |entries|
  {
    if entries != [] && !Refused(t, entries[0]) {
      EntriesFrame(ApplyEntry(t, entries[0], now), entries[1..], now, n);
    }
  }

  // The legacy bootstrap only adds rows.
  lemma {:induction false} LegacyOnlyAdds(t: Table, tools: seq<LegacyTool>, now: int)
    requires WellNamed(t)
    ensures var t' := ApplyLegacy(t, tools, now);
            && WellNamed(t')
            && (forall n <- t :: n in t' && t'[n] == t[n])
            && (forall n <- t' :: n !in t ==> t'[n].kind.Tool? && !t'[n].seed && !t'[n].disabled)
    decreases |tools|
  {
    if tools != [] {
      LegacyOnlyAdds(ApplyLegacyTool(t, tools[0], now), tools[1..], now);
    }
  }

  predicate Supported(tool: LegacyTool) {
    !tool.auth.Unsupported?
  }

  function FirstSupported(tools: seq<LegacyTool>, n: string): (tool: LegacyTool)
    requires exists x <- tools :: Supported(x) && x.name == n
    ensures tool in tools && Supported(tool) && tool.name == n
  {
    if Supported(tools[0]) && tools[0].name == n then tools[0] else FirstSupported(tools[1..], n)
  }

  // A name gets a row exactly when it is new and some tool of that name has an auth that can
  // be translated; the row is the first such tool's.
  lemma {:induction false} LegacyInstallsTools(t: Table, tools: seq<LegacyTool>, now: int, n: string)
    requires WellNamed(t) && n !in t
    ensures var t' := ApplyLegacy(t, tools, now);
            && (n in t' <==> exists x <- tools :: Supported(x) && x.name == n)
            && (n in t' ==>
                  var tool := FirstSupported(tools, n);
                  && t'[n].description == tool.description && t'[n].upstream == tool.upstream
                  && t'[n].settings == tool.settings && t'[n].createdAt == t'[n].updatedAt == now
                  && t'[n].auth == if tool.auth.Absent? then Authless else tool.auth.spec)
    decreases |tools|
  {
    if tools != [] {
      var next := ApplyLegacyTool(t, tools[0], now);
      if n in next {
        LegacyOnlyAdds(next, tools[1..], now);
      } else {
        LegacyInstallsTools(next, tools[1..], now, n);
      }
      assert forall x <- tools :: x == tools[0] || x in tools[1..];
    }
  }

  // A version with fewer parts reads as if the missing ones were zero, further parts are
  // ignored, and so is a part that is no number.
  lemma ShortVersions(major: nat, minor: nat, patch: nat, more: string, word: string)
    requires major <= U64_MAX && minor <= U64_MAX && patch <= U64_MAX
    requires '.' !in word && word != "" && word[0] != '+' && exists c <- word :: !('0' <= c <= '9')
    ensures ParseVersion(Numeral(major)) == Version(major, 0, 0)
    ensures ParseVersion(Numeral(major) + "." + Numeral(minor)) == Version(major, minor, 0)
    ensures ParseVersion(Numeral(major) + "." + (Numeral(minor) + "." + (Numeral(patch) + "." + more))) ==
            Version(major, minor, patch)
    ensures ParseVersion(word) == Version(0, 0, 0)
  {
    hide Numeral, Component, Parts;
    ComponentOfNumeral(major);
    ComponentOfNumeral(minor);
    ComponentOfNumeral(patch);
    ComponentOfWord(word);
    PartsOfJoin(word, "");
    PartsOfJoin(Numeral(major), Numeral(minor));
    PartsOfJoin(Numeral(minor), "");
    PartsOfJoin(Numeral(patch), more);
    PartsOfJoin(Numeral(minor), Numeral(patch) + "." + more);
    PartsOfJoin(Numeral(major), Numeral(minor) + "." + (Numeral(patch) + "." + more));
  }

  lemma ComponentOfWord(word: string)
    requires word != "" && word[0] != '+' && exists c <- word :: !('0' <= c <= '9')
    ensures Component(word) == 0
  {
    DigitsOfWord(word, 0);
  }

  lemma {:induction false} DigitsOfWord(word: string, acc: nat)
    requires exists c <- word :: !('0' <= c <= '9')
    ensures Digits(word, acc).None?
    decreases |word|
  {
    if '0' <= word[0] <= '9' {
      var c :| c in word && !('0' <= c <= '9');
      assert c in word[1..];
      DigitsOfWord(word[1..], acc * 10 + (word[0] as int - '0' as int));
    }
  }
}
