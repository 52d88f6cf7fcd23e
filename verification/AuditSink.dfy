/**
 The JSONL audit sink: daily and size-based rotation with pruning, over a directory
 of names and the files (inodes) behind them. A file unlinked while it is open can
 still be written to; it just has no name any more.

 Whether an open or a write succeeds, and how much of a failing write reached the file,
 are inputs. So is `order`, the library sort's result: the directory's audit files by
 modification time.
 */
module AuditSink {
  import opened Prelude

  // ---- Files ---------------------------------------------------------------

  // `<stem>.<day>`, `<stem>.<day>.<index>`, and whatever else is in the directory.
  datatype FileName =
    | Primary(day: string)
    | Overflow(day: string, index: nat)
    | Other(name: string, sharesStem: bool)

  datatype File = File(content: string, mtime: int)

  datatype Disk = Disk(dir: map<FileName, nat>, files: map<nat, File>, nextInode: nat)

  // Every name leads to a file of its own, and every length fits the file system's u64.
  ghost predicate Sane(d: Disk) {
    && (forall n <- d.dir :: d.dir[n] in d.files)
    && (forall m <- d.dir, n <- d.dir :: d.dir[m] == d.dir[n] ==> m == n)
    && (forall i <- d.files :: i < d.nextInode && |d.files[i].content| <= U64_MAX)
  }

  const OVERFLOW_LIMIT: nat := 10_000

  function FreeFrom(dir: map<FileName, nat>, day: string, i: nat): Option<nat>
    decreases OVERFLOW_LIMIT + 1 - i
  {
    if i > OVERFLOW_LIMIT then None
    else if Overflow(day, i) !in dir then Some(i)
    else FreeFrom(dir, day, i + 1)
  }

  // The day's first unused name, or its primary name when all are taken.
  function Target(dir: map<FileName, nat>, day: string): FileName {
    if Primary(day) !in dir then Primary(day)
    else
      var i := FreeFrom(dir, day, 1);
      if i.Some? then Overflow(day, i.value) else Primary(day)
  }

  ghost predicate NameAvailable(dir: map<FileName, nat>, day: string) {
    Primary(day) !in dir || exists i :: 1 <= i <= OVERFLOW_LIMIT && Overflow(day, i) !in dir
  }

  // Opens for appending, creating the file if its name is unused.
  function Open(d: Disk, name: FileName, now: int): (Disk, nat) {
    if name in d.dir then (d, d.dir[name])
    else (Disk(d.dir[name := d.nextInode], d.files[d.nextInode := File("", now)], d.nextInode + 1), d.nextInode)
  }

  predicate Matches(name: FileName) {
    name.Other? ==> name.sharesStem
  }

  ghost function Mtime(d: Disk, n: FileName): int {
    if n in d.dir && d.dir[n] in d.files then d.files[d.dir[n]].mtime else 0
  }

  ghost predicate AgeOrder(d: Disk, order: seq<FileName>) {
    && (forall n :: n in order <==> n in d.dir && Matches(n))
    && (forall i, j :: 0 <= i < j < |order| ==> order[i] != order[j])
    && (forall i, j :: 0 <= i < j < |order| ==> Mtime(d, order[i]) <= Mtime(d, order[j]))
  }

  // How many of the ordered files go: all but the last `keep`; none when `keep` is zero.
  function Surplus(keep: nat, order: seq<FileName>): (n: nat)
    ensures n <= |order|
  {
    if keep == 0 || |order| <= keep then 0 else |order| - keep
  }

  function Pruned(d: Disk, keep: nat, order: seq<FileName>): Disk {
    d.(dir := map n | n in d.dir && n !in order[..Surplus(keep, order)] :: d.dir[n])
  }

  // ---- The sink ------------------------------------------------------------

  datatype Config = Config(maxBytes: nat, keepFiles: nat)

  // `file` is None after a failed open or write.
  datatype Sink = Sink(disk: Disk, file: Option<nat>, written: nat, today: string)

  ghost predicate Valid(s: Sink) {
    && Sane(s.disk)
    && (s.file.Some? ==> s.file.value in s.disk.files && s.written == |s.disk.files[s.file.value].content|)
  }

  datatype Rotation = Rotation(opens: bool, order: seq<FileName>)

  // The disk and file after trying to open the day's next target.
  function Opened(d: Disk, day: string, now: int, opens: bool): (Disk, Option<nat>) {
    if opens then
      var (found, i) := Open(d, Target(d.dir, day), now);
      (found, Some(i))
    else (d, None)
  }

  function Length(d: Disk, file: Option<nat>): nat {
    if file.Some? && file.value in d.files then |d.files[file.value].content| else 0
  }

  function Rotated(cfg: Config, s: Sink, day: string, now: int, r: Rotation): Sink {
    var (d, file) := Opened(s.disk, day, now, r.opens);
    Sink(Pruned(d, cfg.keepFiles, r.order), file, Length(d, file), day)
  }

  // One call: the line, the clock, what each rotation would meet, and how many bytes of
  // the line the write gets out (all of them, unless it fails).
  datatype Call = Call(line: string, day: string, now: int, daily: Rotation, capped: Rotation, bytes: nat)

  function DayChecked(cfg: Config, s: Sink, c: Call): Sink {
    if c.day != s.today then Rotated(cfg, s, c.day, c.now, c.daily) else s
  }

  predicate Overfull(cfg: Config, s: Sink, line: string) {
    SaturatingAdd(s.written, |line|) > cfg.maxBytes && s.written > 0
  }

  function CapChecked(cfg: Config, s: Sink, c: Call): Sink {
    if Overfull(cfg, s, c.line) then Rotated(cfg, s, c.day, c.now, c.capped) else s
  }

  function Ready(cfg: Config, s: Sink, c: Call): Sink {
    CapChecked(cfg, DayChecked(cfg, s, c), c)
  }

  function Written(c: Call): string {
    if c.bytes < |c.line| then c.line[..c.bytes] else c.line
  }

  // A write that gets no byte out leaves the file as it was.
  function Extended(f: File, c: Call): File {
    File(f.content + Written(c), if Written(c) == "" then f.mtime else c.now)
  }

  function Write(s: Sink, c: Call): Sink {
    if s.file.None? || s.file.value !in s.disk.files then s
    else
      var i := s.file.value;
      var d := s.disk.(files := s.disk.files[i := Extended(s.disk.files[i], c)]);
      if c.bytes < |c.line| then s.(disk := d, file := None)
      else s.(disk := d, written := SaturatingAdd(s.written, |c.line|))
  }

  function Appended(cfg: Config, s: Sink, c: Call): Sink {
    Write(Ready(cfg, s, c), c)
  }

  // ---- Naming --------------------------------------------------------------

  lemma {:induction false} FreeFromIsFirst(dir: map<FileName, nat>, day: string, i: nat)
    ensures FreeFrom(dir, day, i).Some? <==> exists k :: i <= k <= OVERFLOW_LIMIT && Overflow(day, k) !in dir
    ensures var f := FreeFrom(dir, day, i);
            f.Some? ==>
              && i <= f.value <= OVERFLOW_LIMIT
              && Overflow(day, f.value) !in dir
              && forall k :: i <= k < f.value ==> Overflow(day, k) in dir
    decreases OVERFLOW_LIMIT + 1 - i
  {
    if i <= OVERFLOW_LIMIT && Overflow(day, i) in dir {
      FreeFromIsFirst(dir, day, i + 1);
    }
  }

  // The target is unused exactly when the day has an unused name left.
  lemma TargetIsFree(dir: map<FileName, nat>, day: string)
    ensures Target(dir, day) !in dir <==> NameAvailable(dir, day)
    ensures Target(dir, day) in dir ==> Target(dir, day) == Primary(day)
    ensures Target(dir, day) in dir <==>
            Primary(day) in dir && forall k :: 1 <= k <= 10_000 ==> Overflow(day, k) in dir
    ensures forall k: nat :: Target(dir, day) == Overflow(day, k) ==>
              && Primary(day) in dir
              && forall j :: 1 <= j < k ==> Overflow(day, j) in dir
  {
    FreeFromIsFirst(dir, day, 1);
  }

  // ---- Pruning -------------------------------------------------------------

  ghost function AuditFiles(d: Disk): set<FileName> {
    set n | n in d.dir && Matches(n)
  }

  ghost function Members(names: seq<FileName>): set<FileName> {
    set n | n in names
  }

  lemma {:induction false} DistinctMembers(names: seq<FileName>)
    requires forall i, j :: 0 <= i < j < |names| ==> names[i] != names[j]
    ensures |Members(names)| == |names|
  {
    if names == [] {
      assert Members(names) == {};
    } else {
      var rest := names[..|names| - 1];
      DistinctMembers(rest);
      assert Members(names) == Members(rest) + {names[|names| - 1]};
    }
  }

  // Exactly the tail of the age order is left among the audit files.
  lemma PruneLeavesTail(d: Disk, keep: nat, order: seq<FileName>)
    requires AgeOrder(d, order)
    ensures AuditFiles(Pruned(d, keep, order)) == Members(order[Surplus(keep, order)..])
  {
    hide Mtime, Surplus;
    var k := Surplus(keep, order);
    assert order == order[..k] + order[k..];
    forall n
      ensures n in AuditFiles(Pruned(d, keep, order)) <==> n in order[k..]
    {
      HalvesAreDisjoint(order, k, n);
    }
  }

  lemma HalvesAreDisjoint(order: seq<FileName>, k: nat, n: FileName)
    requires k <= |order| && forall i, j :: 0 <= i < j < |order| ==> order[i] != order[j]
    ensures !(n in order[..k] && n in order[k..])
  {
  }

  lemma RemovedAreOldest(d: Disk, keep: nat, order: seq<FileName>, gone: FileName, left: FileName)
    requires AgeOrder(d, order)
    requires gone in AuditFiles(d) && gone !in Pruned(d, keep, order).dir
    requires left in AuditFiles(Pruned(d, keep, order))
    ensures Mtime(d, gone) <= Mtime(d, left)
  {
    hide Mtime;
    var k := Surplus(keep, order);
    PruneLeavesTail(d, keep, order);
    var i :| 0 <= i < k && order[i] == gone;
    var j :| k <= j < |order| && order[j] == left;
  }

  // Pruning leaves at most `keep` audit files, as many as it can, none of them older
  // than one it removed; other files and all contents are left alone.
  lemma PruneKeepsNewest(d: Disk, keep: nat, order: seq<FileName>)
    requires AgeOrder(d, order)
    ensures var after := Pruned(d, keep, order);
            && after.files == d.files
            && after.dir.Keys <= d.dir.Keys
            && (forall n <- after.dir :: after.dir[n] == d.dir[n])
            && (forall n <- d.dir :: n.Other? && !n.sharesStem ==> n in after.dir && n !in AuditFiles(d))
            && (forall n <- d.dir :: n in AuditFiles(d) || (n.Other? && !n.sharesStem))
            && (keep == 0 ==> AuditFiles(after) == AuditFiles(d))
            && (keep > 0 ==> |AuditFiles(after)| == if |AuditFiles(d)| <= keep then |AuditFiles(d)| else keep)
            && (forall gone, left :: gone in AuditFiles(d) - AuditFiles(after) && left in AuditFiles(after) ==>
                  Mtime(d, gone) <= Mtime(d, left))
  {
    hide Mtime;
    var after, k := Pruned(d, keep, order), Surplus(keep, order);
    PruneLeavesTail(d, keep, order);
    assert AuditFiles(d) == Members(order);
    DistinctMembers(order);
    DistinctMembers(order[k..]);
    assert k == 0 ==> order[k..] == order;
    forall gone, left | gone in AuditFiles(d) - AuditFiles(after) && left in AuditFiles(after)
      ensures Mtime(d, gone) <= Mtime(d, left)
    {
      RemovedAreOldest(d, keep, order, gone, left);
    }
  }

  ghost function NoOlder(d: Disk, name: FileName): set<FileName> {
    set n | n in d.dir && Matches(n) && n != name && Mtime(d, n) >= Mtime(d, name)
  }

  ghost function Newer(d: Disk, name: FileName): set<FileName> {
    set n | n in d.dir && Matches(n) && Mtime(d, n) > Mtime(d, name)
  }

  lemma SubsetSize<T>(a: set<T>, b: set<T>)
    requires a <= b
    ensures |a| <= |b|
  {
    assert b == a + (b - a);
  }

  // What follows a name in the age order: all newer files, and only files as new.
  lemma TailIsNewer(d: Disk, order: seq<FileName>, at: nat)
    requires AgeOrder(d, order)
    requires at < |order|
    ensures |Newer(d, order[at])| <= |order| - at - 1 <= |NoOlder(d, order[at])|
  {
    var tail := order[at + 1..];
    DistinctMembers(tail);
    forall n | n in tail
      ensures n in NoOlder(d, order[at])
    {
      var j :| at < j < |order| && order[j] == n;
    }
    SubsetSize(Members(tail), NoOlder(d, order[at]));
    forall n | n in Newer(d, order[at])
      ensures n in tail
    {
      var j :| 0 <= j < |order| && order[j] == n;
      assert at < j;
      assert tail[j - at - 1] == n;
    }
    SubsetSize(Newer(d, order[at]), Members(tail));
  }

  // A file that stands at `at` in the age order is removed exactly when it is surplus.
  lemma PrunedIffSurplus(d: Disk, keep: nat, order: seq<FileName>, at: nat)
    requires AgeOrder(d, order) && at < |order|
    ensures order[at] in Pruned(d, keep, order).dir <==> keep == 0 || |order| - at <= keep
  {
    assert order[at] in order[..Surplus(keep, order)] <==> at < Surplus(keep, order);
  }

  // Names in age order.
  ghost predicate Sorted(d: Disk, order: seq<FileName>, names: set<FileName>) {
    && (forall n :: n in order <==> n in names)
    && (forall i, j :: 0 <= i < j < |order| ==> order[i] != order[j])
    && (forall i, j :: 0 <= i < j < |order| ==> Mtime(d, order[i]) <= Mtime(d, order[j]))
  }

  lemma SortedSize(d: Disk, order: seq<FileName>, names: set<FileName>)
    requires Sorted(d, order, names)
    ensures |order| == |names|
  {
    DistinctMembers(order);
    assert Members(order) == names;
  }

  lemma {:induction false} Oldest(d: Disk, names: set<FileName>) returns (first: FileName)
    requires names != {}
    ensures first in names && forall n <- names :: Mtime(d, first) <= Mtime(d, n)
    decreases |names|
  {
    hide Mtime;
    first :| first in names;
    if names != {first} {
      var rest := Oldest(d, names - {first});
      if Mtime(d, rest) < Mtime(d, first) {
        first := rest;
      }
    }
  }

  lemma {:induction false} Sort(d: Disk, names: set<FileName>) returns (order: seq<FileName>)
    ensures Sorted(d, order, names)
    decreases |names|
  {
    hide Mtime;
    if names == {} {
      order := [];
    } else {
      var first := Oldest(d, names);
      var rest := Sort(d, names - {first});
      order := [first] + rest;
      assert forall j :: 0 < j < |order| ==> order[j] in rest;
    }
  }

  lemma SortedJoin(d: Disk, a: seq<FileName>, below: set<FileName>, b: seq<FileName>, above: set<FileName>)
    requires Sorted(d, a, below) && Sorted(d, b, above) && below !! above
    requires forall m <- below, n <- above :: Mtime(d, m) <= Mtime(d, n)
    ensures Sorted(d, a + b, below + above)
  {
    hide Mtime;
    assert forall i :: 0 <= i < |a| ==> a[i] in below;
    assert forall i :: 0 <= i < |b| ==> b[i] in above;
  }

  // An age order with `name` between two sets that it separates.
  lemma OrderAround(d: Disk, name: FileName, below: set<FileName>, above: set<FileName>)
    returns (order: seq<FileName>)
    requires AuditFiles(d) == below + {name} + above
    requires name !in below && name !in above && below !! above
    requires forall n <- below :: Mtime(d, n) <= Mtime(d, name)
    requires forall n <- above :: Mtime(d, name) <= Mtime(d, n)
    ensures AgeOrder(d, order) && |order| > |above| && order[|order| - 1 - |above|] == name
  {
    hide Mtime;
    var head := Sort(d, below);
    var tail := Sort(d, above);
    SortedSize(d, tail, above);
    SortedJoin(d, head, below, [name], {name});
    SortedJoin(d, head + [name], below + {name}, tail, above);
    order := head + [name] + tail;
    assert order[|head|] == name;
    hide Sorted;
    SortedIsAgeOrder(d, order);
  }

  lemma SortedIsAgeOrder(d: Disk, order: seq<FileName>)
    requires Sorted(d, order, AuditFiles(d))
    ensures AgeOrder(d, order)
  {
    assert forall n :: n in AuditFiles(d) <==> n in d.dir && Matches(n);
  }

  // Two extreme age orders: `name` before everything as new, and after everything as old.
  lemma FirstOfItsAge(d: Disk, keep: nat, name: FileName) returns (order: seq<FileName>)
    requires name in AuditFiles(d)
    ensures AgeOrder(d, order)
    ensures name in Pruned(d, keep, order).dir <==> keep == 0 || |NoOlder(d, name)| < keep
  {
    order := OrderAround(d, name, AuditFiles(d) - {name} - NoOlder(d, name), NoOlder(d, name));
    hide NoOlder, AgeOrder;
    PrunedIffSurplus(d, keep, order, |order| - 1 - |NoOlder(d, name)|);
  }

  lemma LastOfItsAge(d: Disk, keep: nat, name: FileName) returns (order: seq<FileName>)
    requires name in AuditFiles(d)
    ensures AgeOrder(d, order)
    ensures name in Pruned(d, keep, order).dir <==> keep == 0 || |Newer(d, name)| < keep
  {
    order := OrderAround(d, name, AuditFiles(d) - {name} - Newer(d, name), Newer(d, name));
    hide Newer, AgeOrder;
    PrunedIffSurplus(d, keep, order, |order| - 1 - |Newer(d, name)|);
  }

  // A file survives pruning however the sort breaks ties if and only if fewer than `keep`
  // others are as new, and under some breaking of ties if and only if fewer are newer.
  lemma SurvivesPruneIffAmongNewest(d: Disk, keep: nat, name: FileName)
    requires name in AuditFiles(d)
    ensures (forall order :: AgeOrder(d, order) ==> name in Pruned(d, keep, order).dir) <==>
            keep == 0 || |NoOlder(d, name)| < keep
    ensures (exists order :: AgeOrder(d, order) && name in Pruned(d, keep, order).dir) <==>
            keep == 0 || |Newer(d, name)| < keep
  {
    hide NoOlder, Newer, Pruned, Mtime;
    var first := FirstOfItsAge(d, keep, name);
    var last := LastOfItsAge(d, keep, name);
    forall order | AgeOrder(d, order)
      ensures keep == 0 || |NoOlder(d, name)| < keep ==> name in Pruned(d, keep, order).dir
      ensures name in Pruned(d, keep, order).dir ==> keep == 0 || |Newer(d, name)| < keep
    {
      var at :| 0 <= at < |order| && order[at] == name;
      TailIsNewer(d, order, at);
      PrunedIffSurplus(d, keep, order, at);
    }
  }

  // ---- One call ------------------------------------------------------------

  ghost predicate RotationMeets(d: Disk, day: string, now: int, r: Rotation) {
    AgeOrder(Opened(d, day, now, r.opens).0, r.order)
  }

  // Each rotation the call makes meets the directory it finds; a serialised event ends in
  // a newline, so it is not empty; the file system takes no file past a u64 length.
  ghost predicate Enabled(cfg: Config, s: Sink, c: Call) {
    && (c.day != s.today ==> RotationMeets(s.disk, c.day, c.now, c.daily))
    && (Overfull(cfg, DayChecked(cfg, s, c), c.line) ==>
          RotationMeets(DayChecked(cfg, s, c).disk, c.day, c.now, c.capped))
    && c.line != ""
    && Length(Ready(cfg, s, c).disk, Ready(cfg, s, c).file) + |Written(c)| <= U64_MAX
  }

  // A rotation finds the day a name that no file has yet.
  ghost predicate NamesLeft(cfg: Config, s: Sink, c: Call) {
    && (c.day != s.today ==> NameAvailable(s.disk.dir, c.day))
    && (Overfull(cfg, DayChecked(cfg, s, c), c.line) ==> NameAvailable(DayChecked(cfg, s, c).disk.dir, c.day))
  }

  lemma RotateKeepsValid(cfg: Config, s: Sink, day: string, now: int, r: Rotation)
    requires Sane(s.disk)
    ensures Valid(Rotated(cfg, s, day, now, r))
  {
    hide Target, Surplus;
  }

  lemma ReadyKeepsValid(cfg: Config, s: Sink, c: Call)
    requires Valid(s)
    ensures Valid(DayChecked(cfg, s, c)) && Valid(Ready(cfg, s, c))
  {
    hide Rotated;
    RotateKeepsValid(cfg, s, c.day, c.now, c.daily);
    RotateKeepsValid(cfg, DayChecked(cfg, s, c), c.day, c.now, c.capped);
  }

  // The byte count always is the open file's length.
  lemma StepKeepsValid(cfg: Config, s: Sink, c: Call)
    requires Valid(s)
    requires Enabled(cfg, s, c)
    ensures Valid(Appended(cfg, s, c))
  {
    hide DayChecked, CapChecked;
    ReadyKeepsValid(cfg, s, c);
  }

  // What an open file held when the line reached it.
  ghost function Before(t: Sink): string {
    if t.file.Some? && t.file.value in t.disk.files then t.disk.files[t.file.value].content else ""
  }

  ghost predicate Exceeds(cfg: Config, had: string, c: Call) {
    had != "" && |had + Written(c)| > cfg.maxBytes
  }

  lemma CapCheckExceeds(cfg: Config, t: Sink, c: Call)
    requires Valid(t)
    requires cfg.maxBytes <= U64_MAX
    requires CapChecked(cfg, t, c).file.Some?
    requires |Before(CapChecked(cfg, t, c))| + |Written(c)| <= U64_MAX
    ensures Exceeds(cfg, Before(CapChecked(cfg, t, c)), c) <==>
              && Overfull(cfg, t, c.line)
              && !NameAvailable(t.disk.dir, c.day)
              && Exceeds(cfg, t.disk.files[t.disk.dir[Primary(c.day)]].content, c)
  {
    TargetIsFree(t.disk.dir, c.day);
    hide Target, NameAvailable;
  }

  // A write takes a non-empty file past the cap exactly when the line did not fit, all
  // of the day's names were taken, and the primary file it fell back to has no room either.
  lemma CapExceededIffNamesExhausted(cfg: Config, s: Sink, c: Call)
    requires Valid(s)
    requires Enabled(cfg, s, c)
    requires cfg.maxBytes <= U64_MAX
    requires Ready(cfg, s, c).file.Some?
    ensures var t := DayChecked(cfg, s, c);
            && Sane(t.disk)
            && (Exceeds(cfg, Before(Ready(cfg, s, c)), c) <==>
                  && Overfull(cfg, t, c.line)
                  && !NameAvailable(t.disk.dir, c.day)
                  && Exceeds(cfg, t.disk.files[t.disk.dir[Primary(c.day)]].content, c))
  {
    hide DayChecked, CapChecked;
    ReadyKeepsValid(cfg, s, c);
    CapCheckExceeds(cfg, DayChecked(cfg, s, c), c);
  }

  // ---- Whole runs ----------------------------------------------------------

  // History: per call, the file it reached (if any), its line, what got written, and its day.
  datatype Entry = Entry(file: Option<nat>, line: string, text: string, day: string)

  datatype World = World(sink: Sink, log: seq<Entry>)

  function EntryOf(t: Sink, c: Call): Entry {
    Entry(t.file, c.line, if t.file.Some? then Written(c) else "", c.day)
  }

  function Step(cfg: Config, w: World, c: Call): World {
    World(Appended(cfg, w.sink, c), w.log + [EntryOf(Ready(cfg, w.sink, c), c)])
  }

  ghost predicate Admits(cfg: Config, w: World, run: seq<Call>)
    decreases |run|
  {
    run == [] || (Enabled(cfg, w.sink, run[0]) && Admits(cfg, Step(cfg, w, run[0]), run[1..]))
  }

  ghost predicate AlwaysNamesLeft(cfg: Config, w: World, run: seq<Call>)
    decreases |run|
  {
    run == [] || (NamesLeft(cfg, w.sink, run[0]) && AlwaysNamesLeft(cfg, Step(cfg, w, run[0]), run[1..]))
  }

  function Exec(cfg: Config, w: World, run: seq<Call>): World
    decreases |run|
  {
    if run == [] then w else Exec(cfg, Step(cfg, w, run[0]), run[1..])
  }

  // What the log says was written to a file, and how often.
  function Text(log: seq<Entry>, i: nat): string {
    if log == [] then "" else
    Text(log[..|log| - 1], i) + (if log[|log| - 1].file == Some(i) then log[|log| - 1].text else "")
  }

  function Count(log: seq<Entry>, i: nat): nat {
    if log == [] then 0 else
    Count(log[..|log| - 1], i) + (if log[|log| - 1].file == Some(i) then 1 else 0)
  }

  lemma ExtendLog(log: seq<Entry>, e: Entry, i: nat)
    ensures Text(log + [e], i) == Text(log, i) + (if e.file == Some(i) then e.text else "")
    ensures Count(log + [e], i) == Count(log, i) + (if e.file == Some(i) then 1 else 0)
  {
    assert (log + [e])[..|log|] == log;
  }

  lemma {:induction false} UntouchedText(log: seq<Entry>, i: nat)
    requires forall e <- log :: e.file != Some(i)
    ensures Text(log, i) == "" && Count(log, i) == 0
  {
    if log != [] {
      UntouchedText(log[..|log| - 1], i);
    }
  }

  lemma {:induction false} WholeLinesShow(log: seq<Entry>, i: nat)
    requires forall e <- log :: e.file == Some(i) ==> e.text != ""
    ensures Count(log, i) > 0 ==> Text(log, i) != ""
  {
    if log != [] {
      WholeLinesShow(log[..|log| - 1], i);
    }
  }

  // Rotating leaves every file's content alone; a file it creates is empty and new.
  ghost predicate Grows(d: Disk, e: Disk) {
    && d.nextInode <= e.nextInode
    && (forall i <- d.files :: i in e.files && e.files[i].content == d.files[i].content)
    && (forall i <- e.files :: i in d.files || (d.nextInode <= i && e.files[i].content == ""))
  }

  lemma RotateGrows(cfg: Config, s: Sink, day: string, now: int, r: Rotation)
    requires Sane(s.disk)
    ensures Grows(s.disk, Rotated(cfg, s, day, now, r).disk)
  {
    hide Target, Surplus;
  }

  lemma ReadyGrows(cfg: Config, s: Sink, c: Call)
    requires Valid(s)
    ensures Grows(s.disk, Ready(cfg, s, c).disk)
  {
    ReadyKeepsValid(cfg, s, c);
    RotateGrows(cfg, s, c.day, c.now, c.daily);
    RotateGrows(cfg, DayChecked(cfg, s, c), c.day, c.now, c.capped);
    hide Rotated, Sane;
  }

  function Original(start: Disk, i: nat): string {
    if i in start.files then start.files[i].content else ""
  }

  // Every file holds what it held at the start, followed by what the log says.
  ghost predicate Accounted(start: Disk, d: Disk, log: seq<Entry>) {
    && start.nextInode <= d.nextInode
    && (forall e <- log :: e.file.Some? ==> e.file.value < d.nextInode)
    && (forall i <- start.files :: i in d.files)
    && (forall i <- d.files :: d.files[i].content == Original(start, i) + Text(log, i))
  }

  lemma GrowthAccounted(start: Disk, d: Disk, e: Disk, log: seq<Entry>)
    requires Sane(start)
    requires Accounted(start, d, log)
    requires Grows(d, e)
    ensures Accounted(start, e, log)
  {
    forall i | i in e.files
      ensures e.files[i].content == Original(start, i) + Text(log, i)
    {
      if i !in d.files {
        UntouchedText(log, i);
      }
    }
  }

  lemma WriteChangesOneFile(t: Sink, c: Call, i: nat)
    requires Valid(t)
    requires i in t.disk.files
    ensures i in Write(t, c).disk.files
    ensures var e := EntryOf(t, c);
            Write(t, c).disk.files[i].content ==
            t.disk.files[i].content + (if e.file == Some(i) then e.text else "")
  {
  }

  lemma WriteAccountedAt(start: Disk, t: Sink, c: Call, log: seq<Entry>, i: nat)
    requires Valid(t)
    requires i in t.disk.files
    requires t.disk.files[i].content == Original(start, i) + Text(log, i)
    ensures i in Write(t, c).disk.files
    ensures Write(t, c).disk.files[i].content == Original(start, i) + Text(log + [EntryOf(t, c)], i)
  {
    hide Write, EntryOf, Original, Text, Valid;
    WriteChangesOneFile(t, c, i);
    ExtendLog(log, EntryOf(t, c), i);
    var more := if EntryOf(t, c).file == Some(i) then EntryOf(t, c).text else "";
    assert (Original(start, i) + Text(log, i)) + more == Original(start, i) + (Text(log, i) + more);
  }

  lemma WriteAccounted(start: Disk, t: Sink, c: Call, log: seq<Entry>)
    requires Valid(t)
    requires Accounted(start, t.disk, log)
    ensures Accounted(start, Write(t, c).disk, log + [EntryOf(t, c)])
  {
    hide Original, Text, Written;
    var d := Write(t, c).disk;
    assert d.files.Keys == t.disk.files.Keys;
    forall i | i in d.files
      ensures d.files[i].content == Original(start, i) + Text(log + [EntryOf(t, c)], i)
    {
      WriteAccountedAt(start, t, c, log, i);
    }
  }

  // A call's line goes, as far as it gets, to the end of one file, and nowhere else.
  lemma StepAccounted(cfg: Config, start: Disk, w: World, c: Call)
    requires Sane(start)
    requires Valid(w.sink)
    requires Accounted(start, w.sink.disk, w.log)
    ensures Accounted(start, Step(cfg, w, c).sink.disk, Step(cfg, w, c).log)
  {
    hide Accounted, Grows, DayChecked, CapChecked, Write, EntryOf;
    var t := Ready(cfg, w.sink, c);
    ReadyKeepsValid(cfg, w.sink, c);
    ReadyGrows(cfg, w.sink, c);
    GrowthAccounted(start, w.sink.disk, t.disk, w.log);
    WriteAccounted(start, t, c, w.log);
  }

  // In every run, whatever fails, the byte count is the open file's length, and every
  // file's content is its original content followed by the writes logged for it.
  lemma {:induction false} RunAccountsForEveryByte(cfg: Config, start: Disk, w: World, run: seq<Call>)
    requires Sane(start)
    requires Valid(w.sink)
    requires Accounted(start, w.sink.disk, w.log)
    requires Admits(cfg, w, run)
    ensures Valid(Exec(cfg, w, run).sink)
    ensures Accounted(start, Exec(cfg, w, run).sink.disk, Exec(cfg, w, run).log)
    decreases |run|
  {
    hide Accounted, Valid, Sane, Enabled;
    if run != [] {
      StepKeepsValid(cfg, w.sink, run[0]);
      StepAccounted(cfg, start, w, run[0]);
      RunAccountsForEveryByte(cfg, start, Step(cfg, w, run[0]), run[1..]);
    }
  }

  // ---- Runs that never exhaust a day's names -------------------------------

  // Only the last write to a file can be torn, and none to the open file is.
  ghost predicate Whole(log: seq<Entry>, open: Option<nat>) {
    && (forall e <- log :: e.line != "")
    && (forall a, b :: 0 <= a < b < |log| && log[a].file.Some? && log[a].file == log[b].file ==>
          log[a].text == log[a].line)
    && (open.Some? ==> forall e <- log :: e.file == open ==> e.text == e.line)
  }

  // A file is within the cap, or was not written to, or holds no more than one line.
  ghost predicate WithinCap(cfg: Config, start: Disk, d: Disk, log: seq<Entry>, i: nat)
    requires i in d.files
  {
    || |d.files[i].content| <= cfg.maxBytes
    || Count(log, i) == 0
    || (Original(start, i) == "" && Count(log, i) == 1)
  }

  ghost predicate Capped(cfg: Config, start: Disk, d: Disk, log: seq<Entry>) {
    forall i <- d.files :: WithinCap(cfg, start, d, log, i)
  }

  lemma RotationIsFresh(cfg: Config, s: Sink, day: string, now: int, r: Rotation)
    requires Sane(s.disk)
    requires NameAvailable(s.disk.dir, day)
    ensures var t := Rotated(cfg, s, day, now, r);
            t.file.Some? ==> t.file.value == s.disk.nextInode && Before(t) == ""
  {
    TargetIsFree(s.disk.dir, day);
    hide Target, NameAvailable, Surplus;
  }

  // Before its write, a call either rotated to a new, empty file or changed nothing.
  lemma ReadyIsFresh(cfg: Config, s: Sink, c: Call)
    requires Valid(s)
    requires NamesLeft(cfg, s, c)
    ensures var t := Ready(cfg, s, c);
            t == s || (t.file.Some? ==> t.file.value >= s.disk.nextInode && Before(t) == "")
  {
    ReadyKeepsValid(cfg, s, c);
    RotateGrows(cfg, s, c.day, c.now, c.daily);
    if c.day != s.today {
      RotationIsFresh(cfg, s, c.day, c.now, c.daily);
    }
    if Overfull(cfg, DayChecked(cfg, s, c), c.line) {
      RotationIsFresh(cfg, DayChecked(cfg, s, c), c.day, c.now, c.capped);
    }
    hide Rotated, NameAvailable;
  }

  lemma StepWhole(cfg: Config, start: Disk, w: World, c: Call)
    requires Valid(w.sink)
    requires Accounted(start, w.sink.disk, w.log)
    requires Enabled(cfg, w.sink, c) && NamesLeft(cfg, w.sink, c)
    requires Whole(w.log, w.sink.file)
    ensures Whole(Step(cfg, w, c).log, Step(cfg, w, c).sink.file)
  {
    var t := Ready(cfg, w.sink, c);
    ReadyKeepsValid(cfg, w.sink, c);
    ReadyIsFresh(cfg, w.sink, c);
    hide DayChecked, CapChecked, NamesLeft, Overfull, Whole, Sane;
    assert t.file == w.sink.file || (t.file.Some? ==> forall f <- w.log :: f.file != t.file);
    WholeExtends(w.log, w.sink.file, EntryOf(t, c), Step(cfg, w, c).sink.file);
  }

  // One more entry, for the open file or a file without entries; what is open then is
  // that file after a whole write, or nothing.
  lemma WholeExtends(log: seq<Entry>, open: Option<nat>, e: Entry, next: Option<nat>)
    requires Whole(log, open) && e.line != ""
    requires e.file == open || (e.file.Some? ==> forall f <- log :: f.file != e.file)
    requires next.Some? ==> next == e.file && e.text == e.line
    ensures Whole(log + [e], next)
  {
    assert forall i :: 0 <= i < |log| ==> log[i] in log;
  }

  // An open file that is still empty has not been written to.
  lemma EmptyIsUntouched(cfg: Config, start: Disk, w: World, c: Call, i: nat)
    requires Valid(w.sink)
    requires Accounted(start, w.sink.disk, w.log)
    requires NamesLeft(cfg, w.sink, c)
    requires Whole(w.log, w.sink.file)
    requires Ready(cfg, w.sink, c).file == Some(i)
    requires Before(Ready(cfg, w.sink, c)) == ""
    ensures Count(w.log, i) == 0
  {
    ReadyIsFresh(cfg, w.sink, c);
    if Ready(cfg, w.sink, c) == w.sink {
      WholeLinesShow(w.log, i);
    } else {
      UntouchedText(w.log, i);
    }
  }

  lemma WriteWithinCap(cfg: Config, start: Disk, t: Sink, c: Call, log: seq<Entry>, i: nat)
    requires Valid(t)
    requires Accounted(start, t.disk, log)
    requires i in t.disk.files
    requires WithinCap(cfg, start, t.disk, log, i)
    requires t.file == Some(i) ==> !Exceeds(cfg, Before(t), c)
    requires t.file == Some(i) && Before(t) == "" ==> Count(log, i) == 0
    ensures i in Write(t, c).disk.files
    ensures WithinCap(cfg, start, Write(t, c).disk, log + [EntryOf(t, c)], i)
  {
    WriteChangesOneFile(t, c, i);
    ExtendLog(log, EntryOf(t, c), i);
    hide Write, Text, Count, Written;
  }

  lemma GrowthWithinCap(cfg: Config, start: Disk, d: Disk, e: Disk, log: seq<Entry>)
    requires Accounted(start, d, log)
    requires Grows(d, e)
    requires Capped(cfg, start, d, log)
    ensures Capped(cfg, start, e, log)
  {
    forall i | i in e.files
      ensures WithinCap(cfg, start, e, log, i)
    {
      if i in d.files {
        assert WithinCap(cfg, start, d, log, i);
      } else {
        UntouchedText(log, i);
      }
    }
  }

  lemma WriteCapped(cfg: Config, start: Disk, t: Sink, c: Call, log: seq<Entry>)
    requires Valid(t)
    requires Accounted(start, t.disk, log)
    requires Capped(cfg, start, t.disk, log)
    requires t.file.Some? ==> !Exceeds(cfg, Before(t), c) && (Before(t) == "" ==> Count(log, t.file.value) == 0)
    ensures Capped(cfg, start, Write(t, c).disk, log + [EntryOf(t, c)])
  {
    hide WithinCap, Exceeds, Accounted, Written, EntryOf, Count, Before;
    var d := Write(t, c).disk;
    assert d.files.Keys == t.disk.files.Keys;
    forall i | i in d.files
      ensures WithinCap(cfg, start, d, log + [EntryOf(t, c)], i)
    {
      WriteWithinCap(cfg, start, t, c, log, i);
    }
  }

  // With a name left, no call takes a non-empty file past the cap.
  lemma NeverExceeds(cfg: Config, s: Sink, c: Call)
    requires Valid(s)
    requires Enabled(cfg, s, c) && NamesLeft(cfg, s, c)
    requires cfg.maxBytes <= U64_MAX
    requires Ready(cfg, s, c).file.Some?
    ensures !Exceeds(cfg, Before(Ready(cfg, s, c)), c)
  {
    CapExceededIffNamesExhausted(cfg, s, c);
    hide Ready, DayChecked, Valid, Enabled;
  }

  lemma StepCapped(cfg: Config, start: Disk, w: World, c: Call)
    requires Sane(start)
    requires Valid(w.sink)
    requires Accounted(start, w.sink.disk, w.log)
    requires Enabled(cfg, w.sink, c) && NamesLeft(cfg, w.sink, c)
    requires Whole(w.log, w.sink.file)
    requires Capped(cfg, start, w.sink.disk, w.log)
    requires cfg.maxBytes <= U64_MAX
    ensures Capped(cfg, start, Step(cfg, w, c).sink.disk, Step(cfg, w, c).log)
  {
    hide DayChecked, CapChecked, Accounted, Enabled, NamesLeft, Exceeds, EntryOf, Whole, Capped, Grows, Write, Valid,
         Before, Sane;
    var t := Ready(cfg, w.sink, c);
    ReadyKeepsValid(cfg, w.sink, c);
    ReadyGrows(cfg, w.sink, c);
    GrowthAccounted(start, w.sink.disk, t.disk, w.log);
    GrowthWithinCap(cfg, start, w.sink.disk, t.disk, w.log);
    if t.file.Some? {
      NeverExceeds(cfg, w.sink, c);
      if Before(t) == "" {
        EmptyIsUntouched(cfg, start, w, c, t.file.value);
      }
    }
    WriteCapped(cfg, start, t, c, w.log);
  }

  // In every run that leaves each rotation an unused name, a file the sink wrote to is
  // within the cap unless it is a single line in a file that was empty, and every line
  // is whole in its file except that a file's last may be torn by a failed write.
  lemma {:induction false} RunKeepsFilesCapped(cfg: Config, start: Disk, w: World, run: seq<Call>)
    requires Sane(start)
    requires Valid(w.sink)
    requires Accounted(start, w.sink.disk, w.log)
    requires Whole(w.log, w.sink.file)
    requires Capped(cfg, start, w.sink.disk, w.log)
    requires cfg.maxBytes <= U64_MAX
    requires Admits(cfg, w, run) && AlwaysNamesLeft(cfg, w, run)
    ensures Whole(Exec(cfg, w, run).log, Exec(cfg, w, run).sink.file)
    ensures Capped(cfg, start, Exec(cfg, w, run).sink.disk, Exec(cfg, w, run).log)
    decreases |run|
  {
    hide Accounted, Valid, Sane, Enabled, Whole, Capped, NamesLeft;
    if run != [] {
      StepKeepsValid(cfg, w.sink, run[0]);
      StepAccounted(cfg, start, w, run[0]);
      StepWhole(cfg, start, w, run[0]);
      StepCapped(cfg, start, w, run[0]);
      RunKeepsFilesCapped(cfg, start, Step(cfg, w, run[0]), run[1..]);
    }
  }

  // ---- When a day's names cannot run out -----------------------------------

  ghost function OverflowNames(day: string, n: nat): set<FileName> {
    set i | 1 <= i <= n :: Overflow(day, i)
  }

  lemma {:induction false} OverflowNamesSize(day: string, n: nat)
    ensures |OverflowNames(day, n)| == n
  {
    if n == 0 {
      assert OverflowNames(day, n) == {};
    } else {
      OverflowNamesSize(day, n - 1);
      assert OverflowNames(day, n) == OverflowNames(day, n - 1) + {Overflow(day, n)};
    }
  }

  ghost function DayNames(day: string): set<FileName> {
    OverflowNames(day, OVERFLOW_LIMIT) + {Primary(day)}
  }

  // No more audit files than overflow names: one of the day's names is unused.
  ghost predicate Few(d: Disk) {
    |AuditFiles(d)| <= OVERFLOW_LIMIT
  }

  lemma FewLeaveAName(d: Disk, day: string)
    requires Few(d)
    ensures NameAvailable(d.dir, day)
  {
    var names := DayNames(day);
    OverflowNamesSize(day, OVERFLOW_LIMIT);
    assert |names| == OVERFLOW_LIMIT + 1;
    if forall n <- names :: n in d.dir {
      assert names <= AuditFiles(d);
      SubsetSize(names, AuditFiles(d));
      assert false;
    }
    var n :| n in names && n !in d.dir;
    assert n == Primary(day) || exists i :: 1 <= i <= OVERFLOW_LIMIT && n == Overflow(day, i);
  }

  lemma RotationLeavesFew(cfg: Config, s: Sink, day: string, now: int, r: Rotation)
    requires 0 < cfg.keepFiles <= OVERFLOW_LIMIT
    requires RotationMeets(s.disk, day, now, r)
    ensures Few(Rotated(cfg, s, day, now, r).disk)
  {
    PruneKeepsNewest(Opened(s.disk, day, now, r.opens).0, cfg.keepFiles, r.order);
    hide Pruned, Opened, AuditFiles, AgeOrder;
  }

  lemma StepLeavesFew(cfg: Config, s: Sink, c: Call)
    requires 0 < cfg.keepFiles <= OVERFLOW_LIMIT
    requires Few(s.disk) && Enabled(cfg, s, c)
    ensures NamesLeft(cfg, s, c) && Few(Appended(cfg, s, c).disk)
  {
    hide Rotated, NameAvailable, RotationMeets, Overfull, Few;
    var t := DayChecked(cfg, s, c);
    if c.day != s.today {
      RotationLeavesFew(cfg, s, c.day, c.now, c.daily);
    }
    if Overfull(cfg, t, c.line) {
      RotationLeavesFew(cfg, t, c.day, c.now, c.capped);
    }
    FewLeaveAName(s.disk, c.day);
    FewLeaveAName(t.disk, c.day);
    hide DayChecked, CapChecked;
    WriteKeepsNames(Ready(cfg, s, c), c);
  }

  lemma WriteKeepsNames(t: Sink, c: Call)
    requires Few(t.disk)
    ensures Few(Write(t, c).disk)
  {
    assert AuditFiles(Write(t, c).disk) == AuditFiles(t.disk);
  }

  lemma {:induction false} RunLeavesNames(cfg: Config, w: World, run: seq<Call>)
    requires 0 < cfg.keepFiles <= OVERFLOW_LIMIT
    requires Few(w.sink.disk) && Admits(cfg, w, run)
    ensures AlwaysNamesLeft(cfg, w, run)
    decreases |run|
  {
    hide Enabled, NamesLeft, Few, Appended;
    if run != [] {
      StepLeavesFew(cfg, w.sink, run[0]);
      RunLeavesNames(cfg, Step(cfg, w, run[0]), run[1..]);
    }
  }

  // What a new sink opens: the day's primary file, with the length it already has.
  function Opening(disk: Disk, day: string, now: int): Sink {
    var (found, i) := Open(disk, Primary(day), now);
    Sink(found, Some(i), Length(found, Some(i)), day)
  }

  lemma OpeningIsSound(cfg: Config, disk: Disk, day: string, now: int)
    requires Sane(disk)
    ensures var s := Opening(disk, day, now);
            && Valid(s) && Grows(disk, s.disk)
            && Accounted(disk, s.disk, []) && Whole([], s.file) && Capped(cfg, disk, s.disk, [])
  {
  }

  // From the configuration and the directory alone: with pruning on, and no more audit
  // files than overflow names once the sink is open, no later run exceeds the cap but by a
  // single line, and tears no line but a file's last.
  lemma PruningSinkStaysCapped(cfg: Config, disk: Disk, day: string, now: int, run: seq<Call>)
    requires Sane(disk) && 0 < cfg.keepFiles <= OVERFLOW_LIMIT && cfg.maxBytes <= U64_MAX
    requires Few(Opening(disk, day, now).disk)
    requires Admits(cfg, World(Opening(disk, day, now), []), run)
    ensures var last := Exec(cfg, World(Opening(disk, day, now), []), run);
            && Accounted(disk, last.sink.disk, last.log)
            && Whole(last.log, last.sink.file)
            && Capped(cfg, disk, last.sink.disk, last.log)
  {
    hide Opening, Accounted, Whole, Capped, Few, Grows;
    var w := World(Opening(disk, day, now), []);
    OpeningIsSound(cfg, disk, day, now);
    RunLeavesNames(cfg, w, run);
    RunAccountsForEveryByte(cfg, disk, w, run);
    RunKeepsFilesCapped(cfg, disk, w, run);
  }

  // ---- When they do run out ------------------------------------------------

  // All of a day's names, each over a full file.
  ghost function FullDay(day: string, content: string): Disk {
    var names := DayNames(day);
    var inodes := set n | n in names :: Inode(n);
    Disk(map n | n in names :: Inode(n), map i | i in inodes :: File(content, 0), OVERFLOW_LIMIT + 1)
  }

  function Inode(n: FileName): nat {
    if n.Overflow? then n.index else 0
  }

  // A sink that never prunes, opened on such a directory, writes past its cap.
  lemma CapCanBeExceeded(day: string) returns (cfg: Config, disk: Disk, c: Call)
    ensures Sane(disk) && cfg.maxBytes <= U64_MAX
    ensures Enabled(cfg, Opening(disk, day, 0), c) && Ready(cfg, Opening(disk, day, 0), c).file.Some?
    ensures Exceeds(cfg, Before(Ready(cfg, Opening(disk, day, 0), c)), c)
  {
    cfg, disk := Config(1, 0), FullDay(day, "x");
    FullDayIsSane(day, "x");
    var s := Opening(disk, day, 0);
    OpeningIsSound(cfg, disk, day, 0);
    var order := Sort(disk, AuditFiles(disk));
    SortedIsAgeOrder(disk, order);
    c := Call("y", day, 0, Rotation(true, order), Rotation(true, order), 1);
    TargetIsFree(disk.dir, day);
    hide FullDay, AgeOrder, Sorted, Target, NameAvailable, Grows, Accounted, Whole, Capped;
    assert s == Sink(disk, Some(disk.dir[Primary(day)]), 1, day);
    assert Opened(disk, day, 0, true) == (disk, Some(disk.dir[Primary(day)]));
    assert Ready(cfg, s, c).disk.files == disk.files;
    CapCheckExceeds(cfg, s, c);
  }

  lemma FullDayIsSane(day: string, content: string)
    requires |content| <= U64_MAX
    ensures var d := FullDay(day, content);
            && Sane(d) && !NameAvailable(d.dir, day)
            && Primary(day) in d.dir && d.files[d.dir[Primary(day)]].content == content
  {
    var names := DayNames(day);
    assert Primary(day) in names && forall i :: 1 <= i <= OVERFLOW_LIMIT ==> Overflow(day, i) in names;
    assert forall m <- names, n <- names :: Inode(m) == Inode(n) ==> m == n;
    assert forall n <- names :: Inode(n) <= OVERFLOW_LIMIT;
  }

  // ---- What a write leaves -------------------------------------------------

  // A whole write extends the open file by the line, dates it, and keeps it open; a failed
  // one leaves the part that got out and closes the sink, which then has no file.
  lemma WriteOutcome(cfg: Config, s: Sink, c: Call)
    requires Valid(s) && Enabled(cfg, s, c) && Ready(cfg, s, c).file.Some?
    ensures var t, after := Ready(cfg, s, c), Appended(cfg, s, c);
            var i := t.file.value;
            && i in t.disk.files && i in after.disk.files && after.disk.dir == t.disk.dir
            && (c.bytes >= |c.line| ==>
                  && after.file == Some(i) && after.written == |t.disk.files[i].content| + |c.line|
                  && after.disk.files[i] == File(t.disk.files[i].content + c.line, c.now))
            && (c.bytes < |c.line| ==>
                  && after.file == None
                  && after.disk.files[i].content == t.disk.files[i].content + c.line[..c.bytes]
                  && after.disk.files[i].mtime == if c.bytes == 0 then t.disk.files[i].mtime else c.now)
  {
    ReadyKeepsValid(cfg, s, c);
    hide DayChecked, CapChecked;
  }

  // A rotation whose open fails leaves the sink closed and empty, so that every line is
  // dropped until the day changes, however long.
  lemma FailedRotationDropsTheDay(cfg: Config, s: Sink, day: string, now: int, order: seq<FileName>,
                                  log: seq<Entry>, run: seq<Call>)
    requires forall c <- run :: c.day == day
    ensures var closed := Rotated(cfg, s, day, now, Rotation(false, order));
            && closed.file == None && closed.written == 0
            && Exec(cfg, World(closed, log), run).sink == closed
  {
    ClosedSinkDropsLines(cfg, World(Rotated(cfg, s, day, now, Rotation(false, order)), log), run);
  }

  // ---- Days ----------------------------------------------------------------

  // A call rotates exactly when the day changed or the line does not fit, and afterwards
  // the sink is on the call's day.
  lemma RotatesIffNeeded(cfg: Config, s: Sink, c: Call)
    requires cfg.maxBytes <= U64_MAX && s.written + |c.line| <= U64_MAX
    ensures Ready(cfg, s, c).today == c.day && Appended(cfg, s, c).today == c.day
    ensures c.day == s.today && (s.written == 0 || s.written + |c.line| <= cfg.maxBytes) ==> Ready(cfg, s, c) == s
    ensures c.day == s.today && !(s.written == 0 || s.written + |c.line| <= cfg.maxBytes) ==>
              Ready(cfg, s, c) == Rotated(cfg, s, c.day, c.now, c.capped)
    ensures c.day != s.today && !Overfull(cfg, Rotated(cfg, s, c.day, c.now, c.daily), c.line) ==>
              Ready(cfg, s, c) == Rotated(cfg, s, c.day, c.now, c.daily)
  {
    hide Opened, Pruned;
  }

  predicate NamedFor(n: FileName, day: string) {
    n == Primary(day) || (n.Overflow? && n.day == day)
  }

  // When the day changed and has a name left, the line goes to a file this call created
  // under a name of the new day, if to any; never to one that was there before.
  lemma NewDayNewFile(cfg: Config, s: Sink, c: Call)
    requires Valid(s) && Enabled(cfg, s, c) && NamesLeft(cfg, s, c) && c.day != s.today
    ensures var t := Ready(cfg, s, c);
            t.file.Some? ==>
              && t.file.value !in s.disk.files && t.file != s.file
              && Before(t) == ""
              && forall n <- t.disk.dir :: t.disk.dir[n] == t.file.value ==> NamedFor(n, c.day)
  {
    ReadyIsFresh(cfg, s, c);
    ReadyNamed(cfg, s, c);
    assert Ready(cfg, s, c).today == c.day;
    hide DayChecked, CapChecked, NamesLeft, Enabled;
  }

  // The open file goes by no name but the day's.
  ghost predicate OpenNamed(s: Sink) {
    s.file.Some? ==> forall n <- s.disk.dir :: s.disk.dir[n] == s.file.value ==> NamedFor(n, s.today)
  }

  lemma RotatedNamed(cfg: Config, s: Sink, day: string, now: int, r: Rotation)
    requires Sane(s.disk)
    ensures OpenNamed(Rotated(cfg, s, day, now, r))
  {
    assert NamedFor(Target(s.disk.dir, day), day);
    hide Target, Surplus;
  }

  lemma ReadyNamed(cfg: Config, s: Sink, c: Call)
    requires Valid(s)
    ensures Ready(cfg, s, c) == s || OpenNamed(Ready(cfg, s, c))
  {
    ReadyKeepsValid(cfg, s, c);
    RotatedNamed(cfg, s, c.day, c.now, c.daily);
    RotatedNamed(cfg, DayChecked(cfg, s, c), c.day, c.now, c.capped);
    hide Rotated;
  }

  // Rotating links nothing but a file that was not there before.
  ghost predicate LinksOnlyNew(d: Disk, e: Disk) {
    forall n <- e.dir :: (n in d.dir && e.dir[n] == d.dir[n]) || d.nextInode <= e.dir[n]
  }

  lemma RotatedLinksOnlyNew(cfg: Config, s: Sink, day: string, now: int, r: Rotation)
    ensures LinksOnlyNew(s.disk, Rotated(cfg, s, day, now, r).disk)
  {
    hide Target, Surplus;
  }

  lemma ReadyLinksOnlyNew(cfg: Config, s: Sink, c: Call)
    requires Valid(s)
    ensures LinksOnlyNew(s.disk, Ready(cfg, s, c).disk)
  {
    RotateGrows(cfg, s, c.day, c.now, c.daily);
    RotatedLinksOnlyNew(cfg, s, c.day, c.now, c.daily);
    RotatedLinksOnlyNew(cfg, DayChecked(cfg, s, c), c.day, c.now, c.capped);
    hide Rotated, Overfull;
  }

  // A line whose file has a name is in a file named for the line's day.
  ghost predicate DaysMatch(d: Disk, log: seq<Entry>) {
    && (forall e <- log :: e.file.Some? ==> e.file.value < d.nextInode)
    && (forall e <- log, n <- d.dir :: e.file == Some(d.dir[n]) ==> NamedFor(n, e.day))
  }

  lemma GrowthKeepsDays(d: Disk, e: Disk, log: seq<Entry>)
    requires DaysMatch(d, log) && Grows(d, e) && LinksOnlyNew(d, e)
    ensures DaysMatch(e, log)
  {
  }

  lemma WriteKeepsDays(t: Sink, c: Call, log: seq<Entry>)
    requires Valid(t) && DaysMatch(t.disk, log) && OpenNamed(t) && t.today == c.day
    ensures DaysMatch(Write(t, c).disk, log + [EntryOf(t, c)]) && OpenNamed(Write(t, c))
  {
    hide Written, Extended;
  }

  lemma StepKeepsDays(cfg: Config, w: World, c: Call)
    requires Valid(w.sink) && OpenNamed(w.sink) && DaysMatch(w.sink.disk, w.log)
    ensures OpenNamed(Step(cfg, w, c).sink) && DaysMatch(Step(cfg, w, c).sink.disk, Step(cfg, w, c).log)
  {
    var t := Ready(cfg, w.sink, c);
    assert t.today == c.day;
    hide DayChecked, CapChecked, OpenNamed, DaysMatch, Grows, LinksOnlyNew, Write, EntryOf;
    ReadyKeepsValid(cfg, w.sink, c);
    ReadyGrows(cfg, w.sink, c);
    ReadyLinksOnlyNew(cfg, w.sink, c);
    ReadyNamed(cfg, w.sink, c);
    GrowthKeepsDays(w.sink.disk, t.disk, w.log);
    WriteKeepsDays(t, c, w.log);
  }

  lemma {:induction false} RunKeepsDays(cfg: Config, w: World, run: seq<Call>)
    requires Valid(w.sink) && OpenNamed(w.sink) && DaysMatch(w.sink.disk, w.log)
    requires Admits(cfg, w, run)
    ensures DaysMatch(Exec(cfg, w, run).sink.disk, Exec(cfg, w, run).log)
    ensures run != [] ==> Exec(cfg, w, run).sink.today == run[|run| - 1].day
    decreases |run|
  {
    if run != [] {
      assert Step(cfg, w, run[0]).sink.today == run[0].day;
      hide Valid, OpenNamed, DaysMatch, Enabled, Appended, Ready;
      StepKeepsValid(cfg, w.sink, run[0]);
      StepKeepsDays(cfg, w, run[0]);
      RunKeepsDays(cfg, Step(cfg, w, run[0]), run[1..]);
    }
  }

  // From any start, over every run: each line whose file is still in the directory is in a
  // file named for the day of its append, and the sink is on the day of the last append.
  lemma LinesAreInTheirDaysFiles(cfg: Config, disk: Disk, day: string, now: int, run: seq<Call>)
    requires Sane(disk) && Admits(cfg, World(Opening(disk, day, now), []), run)
    ensures var last := Exec(cfg, World(Opening(disk, day, now), []), run);
            && DaysMatch(last.sink.disk, last.log)
            && last.sink.today == if run == [] then day else run[|run| - 1].day
  {
    OpeningIsSound(cfg, disk, day, now);
    RunKeepsDays(cfg, World(Opening(disk, day, now), []), run);
  }

  // ---- A closed sink -------------------------------------------------------

  // After a failed open or write, a call writes its line exactly when it rotates and
  // that rotation's open succeeds.
  lemma ClosedSinkReopensIff(cfg: Config, s: Sink, c: Call)
    requires s.file.None?
    ensures Ready(cfg, s, c).file.Some? <==>
              if Overfull(cfg, DayChecked(cfg, s, c), c.line) then c.capped.opens
              else c.day != s.today && c.daily.opens
    ensures c.day == s.today && !Overfull(cfg, s, c.line) ==> Appended(cfg, s, c) == s
  {
  }

  // So after a failed rotation every line is dropped until the day changes, and after a
  // failed write until a line no longer fits the file that failed.
  lemma {:induction false} ClosedSinkDropsLines(cfg: Config, w: World, run: seq<Call>)
    requires w.sink.file.None?
    requires forall c <- run :: c.day == w.sink.today && !Overfull(cfg, w.sink, c.line)
    ensures Exec(cfg, w, run).sink == w.sink
    ensures forall k :: |w.log| <= k < |Exec(cfg, w, run).log| ==> Exec(cfg, w, run).log[k].file.None?
    ensures |Exec(cfg, w, run).log| == |w.log| + |run|
    ensures Exec(cfg, w, run).log[..|w.log|] == w.log
    decreases |run|
  {
    if run == [] {
      assert w.log[..|w.log|] == w.log;
    } else {
      var next := Step(cfg, w, run[0]);
      ClosedSinkReopensIff(cfg, w.sink, run[0]);
      ClosedSinkDropsLines(cfg, next, run[1..]);
      var log := Exec(cfg, w, run).log;
      assert log[..|next.log|] == next.log;
      assert log[|w.log|] == next.log[|w.log|];
      assert log[..|w.log|] == next.log[..|w.log|] == w.log;
    }
  }

  // ---- Reachability of the open file ---------------------------------------

  ghost predicate Linked(s: Sink) {
    s.file.Some? ==> exists n :: n in s.disk.dir && s.disk.dir[n] == s.file.value
  }

  // The audit files that a file created now would not be newer than.
  ghost function AsNewAs(d: Disk, now: int): set<FileName> {
    set n | n in d.dir && Matches(n) && Mtime(d, n) >= now
  }

  ghost function NewerThan(d: Disk, now: int): set<FileName> {
    set n | n in d.dir && Matches(n) && Mtime(d, n) > now
  }

  // The file a rotation creates, as the pruning that follows finds it.
  lemma FreshFileAge(s: Sink, day: string, now: int) returns (d: Disk, name: FileName)
    requires Sane(s.disk)
    requires NameAvailable(s.disk.dir, day)
    ensures d == Opened(s.disk, day, now, true).0 && name in AuditFiles(d)
    ensures NoOlder(d, name) == AsNewAs(s.disk, now) && Newer(d, name) == NewerThan(s.disk, now)
    ensures d.dir == s.disk.dir[name := s.disk.nextInode] && name !in s.disk.dir
    ensures Opened(s.disk, day, now, true).1 == Some(s.disk.nextInode)
  {
    TargetIsFree(s.disk.dir, day);
    name, d := Target(s.disk.dir, day), Opened(s.disk, day, now, true).0;
    assert Matches(name);
    hide Target, NameAvailable;
  }

  lemma LinkedIffSurvives(cfg: Config, s: Sink, day: string, now: int, order: seq<FileName>, d: Disk, name: FileName)
    requires Sane(s.disk) && name !in s.disk.dir
    requires Opened(s.disk, day, now, true) == (d, Some(s.disk.nextInode))
    requires d.dir == s.disk.dir[name := s.disk.nextInode]
    ensures Linked(Rotated(cfg, s, day, now, Rotation(true, order))) <==> name in Pruned(d, cfg.keepFiles, order).dir
  {
    hide Opened, Surplus;
    var t := Rotated(cfg, s, day, now, Rotation(true, order));
    assert name in t.disk.dir ==> t.disk.dir[name] == s.disk.nextInode;
    assert forall n <- t.disk.dir :: t.disk.dir[n] == s.disk.nextInode ==> n == name;
  }

  ghost predicate LinkedUnder(cfg: Config, s: Sink, day: string, now: int, order: seq<FileName>) {
    Linked(Rotated(cfg, s, day, now, Rotation(true, order)))
  }

  // The file a rotation creates keeps its name, however the sort breaks ties, if and only
  // if fewer than `keep_files` audit files are dated at or after the clock; and under some
  // breaking of ties if and only if fewer are dated after it.
  lemma FreshFileKeepsNameIff(cfg: Config, s: Sink, day: string, now: int)
    requires Sane(s.disk)
    requires NameAvailable(s.disk.dir, day)
    ensures (forall order :: RotationMeets(s.disk, day, now, Rotation(true, order)) ==>
               LinkedUnder(cfg, s, day, now, order)) <==>
            cfg.keepFiles == 0 || |AsNewAs(s.disk, now)| < cfg.keepFiles
    ensures (exists order :: RotationMeets(s.disk, day, now, Rotation(true, order)) &&
               LinkedUnder(cfg, s, day, now, order)) <==>
            cfg.keepFiles == 0 || |NewerThan(s.disk, now)| < cfg.keepFiles
  {
    var d, name := FreshFileAge(s, day, now);
    SurvivesPruneIffAmongNewest(d, cfg.keepFiles, name);
    forall order
      ensures LinkedUnder(cfg, s, day, now, order) <==> name in Pruned(d, cfg.keepFiles, order).dir
      ensures RotationMeets(s.disk, day, now, Rotation(true, order)) <==> AgeOrder(d, order)
    {
      LinkedIffSurvives(cfg, s, day, now, order, d, name);
    }
    hide Pruned, AgeOrder, RotationMeets, LinkedUnder, NoOlder, Newer, AsNewAs, NewerThan, Opened;
  }

  // Each rotation of the call finds a name left and fewer than `keep_files` audit files
  // dated at or after the clock.
  ghost predicate ClockAhead(cfg: Config, s: Sink, c: Call) {
    && NamesLeft(cfg, s, c)
    && (c.day != s.today ==> cfg.keepFiles == 0 || |AsNewAs(s.disk, c.now)| < cfg.keepFiles)
    && (Overfull(cfg, DayChecked(cfg, s, c), c.line) ==>
          cfg.keepFiles == 0 || |AsNewAs(DayChecked(cfg, s, c).disk, c.now)| < cfg.keepFiles)
  }

  lemma RotateLinked(cfg: Config, s: Sink, day: string, now: int, r: Rotation)
    requires Sane(s.disk)
    requires NameAvailable(s.disk.dir, day)
    requires RotationMeets(s.disk, day, now, r)
    requires cfg.keepFiles == 0 || |AsNewAs(s.disk, now)| < cfg.keepFiles
    ensures Linked(Rotated(cfg, s, day, now, r))
  {
    if r.opens {
      FreshFileKeepsNameIff(cfg, s, day, now);
      assert r == Rotation(true, r.order) && LinkedUnder(cfg, s, day, now, r.order);
    }
  }

  lemma StepKeepsLinked(cfg: Config, s: Sink, c: Call)
    requires Valid(s)
    requires Enabled(cfg, s, c) && ClockAhead(cfg, s, c)
    requires Linked(s)
    ensures Linked(Ready(cfg, s, c)) && Linked(Appended(cfg, s, c))
  {
    hide Rotated, NameAvailable, RotationMeets, AsNewAs, Overfull;
    ReadyKeepsValid(cfg, s, c);
    var t := DayChecked(cfg, s, c);
    if c.day != s.today {
      RotateLinked(cfg, s, c.day, c.now, c.daily);
    }
    if Overfull(cfg, t, c.line) {
      RotateLinked(cfg, t, c.day, c.now, c.capped);
    }
    hide DayChecked, CapChecked;
    assert Appended(cfg, s, c).disk.dir == Ready(cfg, s, c).disk.dir;
  }

  ghost predicate ClockStaysAhead(cfg: Config, w: World, run: seq<Call>)
    decreases |run|
  {
    run == [] || (ClockAhead(cfg, w.sink, run[0]) && ClockStaysAhead(cfg, Step(cfg, w, run[0]), run[1..]))
  }

  // In every run whose clock stays ahead of the kept files, pruning never unlinks the
  // file the sink is writing to.
  lemma {:induction false} RunKeepsOpenFileLinked(cfg: Config, w: World, run: seq<Call>)
    requires Valid(w.sink) && Linked(w.sink)
    requires Admits(cfg, w, run) && ClockStaysAhead(cfg, w, run)
    ensures Linked(Exec(cfg, w, run).sink)
    decreases |run|
  {
    hide Valid, Enabled, ClockAhead, Linked;
    if run != [] {
      StepKeepsValid(cfg, w.sink, run[0]);
      StepKeepsLinked(cfg, w.sink, run[0]);
      RunKeepsOpenFileLinked(cfg, Step(cfg, w, run[0]), run[1..]);
    }
  }

  // ---- The sink as an object -----------------------------------------------

  class JsonlSink {
    const cfg: Config
    var disk: Disk
    var file: Option<nat>
    var written: nat
    var today: string

    ghost function State(): Sink
      reads this
    {
      Sink(disk, file, written, today)
    }

    // Opens the day's primary file, picking up its length when it already exists.
    constructor (cfg: Config, disk: Disk, day: string, now: int)
      requires Sane(disk)
      ensures this.cfg == cfg && State() == Opening(disk, day, now)
      ensures Primary(day) in this.disk.dir && file == Some(this.disk.dir[Primary(day)])
      ensures Valid(State()) && Linked(State())
      ensures Grows(disk, this.disk)
      ensures Accounted(disk, this.disk, []) && Whole([], file) && Capped(cfg, disk, this.disk, [])
    {
      var (found, i) := Open(disk, Primary(day), now);
      this.cfg, this.disk, file, today := cfg, found, Some(i), day;
      written := |found.files[i].content|;
      new;
      assert Primary(day) in this.disk.dir && this.disk.dir[Primary(day)] == i;
    }

    method NextTarget(day: string) returns (name: FileName)
      ensures name == Target(disk.dir, day)
    {
      if Primary(day) !in disk.dir {
        return Primary(day);
      }
      for i := 1 to OVERFLOW_LIMIT + 1
        invariant FreeFrom(disk.dir, day, 1) == FreeFrom(disk.dir, day, i)
      {
        if Overflow(day, i) !in disk.dir {
          return Overflow(day, i);
        }
      }
      return Primary(day);
    }

    method PruneOldest(order: seq<FileName>)
      requires AgeOrder(disk, order)
      modifies `disk
      ensures disk == Pruned(old(disk), cfg.keepFiles, order)
    {
      if cfg.keepFiles == 0 || |order| <= cfg.keepFiles {
        assert disk.dir == Pruned(disk, cfg.keepFiles, order).dir;
        return;
      }
      for i := 0 to |order| - cfg.keepFiles
        invariant disk == old(disk).(dir := disk.dir)
        invariant disk.dir == map n | n in old(disk).dir && n !in order[..i] :: old(disk).dir[n]
      {
        assert order[..i + 1] == order[..i] + [order[i]];
        disk := disk.(dir := disk.dir - {order[i]});
      }
    }

    method RotateTo(day: string, now: int, r: Rotation)
      requires Valid(State())
      requires RotationMeets(disk, day, now, r)
      modifies this
      ensures Valid(State())
      ensures State() == Rotated(cfg, old(State()), day, now, r)
    {
      RotateKeepsValid(cfg, State(), day, now, r);
      file, written, today := None, 0, day;
      var candidate := NextTarget(day);
      if r.opens {
        var (found, i) := Open(disk, candidate, now);
        disk, file, written := found, Some(i), |found.files[i].content|;
      }
      PruneOldest(r.order);
    }

    method Append(c: Call)
      requires Valid(State())
      requires Enabled(cfg, State(), c)
      modifies this
      ensures Valid(State())
      ensures State() == Appended(cfg, old(State()), c) && today == c.day
    {
      StepKeepsValid(cfg, State(), c);
      ReadyKeepsValid(cfg, State(), c);
      if c.day != today {
        RotateTo(c.day, c.now, c.daily);
      }
      assert State() == DayChecked(cfg, old(State()), c);
      if SaturatingAdd(written, |c.line|) > cfg.maxBytes && written > 0 {
        RotateTo(c.day, c.now, c.capped);
      }
      assert State() == Ready(cfg, old(State()), c);
      if file.Some? {
        var i := file.value;
        disk := disk.(files := disk.files[i := Extended(disk.files[i], c)]);
        if c.bytes < |c.line| {
          file := None;
          return;
        }
        written := SaturatingAdd(written, |c.line|);
      }
    }
  }
}
