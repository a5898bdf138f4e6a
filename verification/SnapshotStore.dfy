/**
 * Retention of managed snapshots as functions of a directory listing
 * (forven/backups.py): the per-reason window, the global byte sweep, the free-space
 * precheck and one whole snapshot, with every failure path.
 */
module SnapshotStore {
  import opened Basics
  import Text
  import Names = SnapshotNames

  /** A file and the reason its name parses to, if it is a managed snapshot. */
  datatype Entry = Entry(name: string, reason: Option<string>, mtime: int, size: nat)

  /** A directory: entries with distinct names, in no particular order. */
  type Dir = seq<Entry>

  predicate Absent(d: Dir, name: string) {
    forall e :: e in d ==> e.name != name
  }

  predicate Distinct(d: Dir) {
    d == [] || (Absent(d[1..], d[0].name) && Distinct(d[1..]))
  }

  /** The reason of a managed snapshot: it matches `forven-*.db` and the full name grammar. */
  function ReasonOf(name: string): Option<string> {
    if Names.Chomp(name) == name then Names.Parse(name) else None
  }

  /** Every entry carries the classification of its own name. */
  predicate Classified(d: Dir) {
    forall e :: e in d ==> e.reason == ReasonOf(e.name)
  }

  predicate IsManaged(e: Entry) {
    e.reason.Some?
  }

  predicate HasReason(e: Entry, reason: string) {
    e.reason == Some(reason)
  }

  function Managed(d: Dir): Dir {
    if d == [] then []
    else if IsManaged(d[0]) then [d[0]] + Managed(d[1..])
    else Managed(d[1..])
  }

  function ManagedBytes(d: Dir): nat {
    if d == [] then 0 else (if IsManaged(d[0]) then d[0].size else 0) + ManagedBytes(d[1..])
  }

  function WithReason(d: Dir, reason: string): Dir {
    if d == [] then []
    else if HasReason(d[0], reason) then [d[0]] + WithReason(d[1..], reason)
    else WithReason(d[1..], reason)
  }

  function Unlink(d: Dir, name: string): Dir {
    if d == [] then []
    else if d[0].name == name then Unlink(d[1..], name)
    else [d[0]] + Unlink(d[1..], name)
  }

  // ---- ordering by age ----

  /** `a` is older: smaller modification time, then smaller name. */
  predicate Older(a: Entry, b: Entry) {
    a.mtime < b.mtime || (a.mtime == b.mtime && Text.Less(a.name, b.name))
  }

  function Insert(e: Entry, s: Dir): Dir {
    if s == [] || Older(e, s[0]) then [e] + s else [s[0]] + Insert(e, s[1..])
  }

  /** Oldest first; the reversed result of the newest-first sort, the keys being distinct. */
  function ByAge(d: Dir): Dir {
    if d == [] then [] else Insert(d[0], ByAge(d[1..]))
  }

  predicate Oldest(e: Entry, s: Dir) {
    forall x :: x in s ==> Older(e, x)
  }

  predicate Sorted(s: Dir) {
    s == [] || (Oldest(s[0], s[1..]) && Sorted(s[1..]))
  }

  // ---- the global sweep ----

  /** Deletes from the front of `queue` until the budget is met; kept and undeletable files are passed over. */
  function Sweep(queue: Dir, d: Dir, total: int, budget: int, spare: set<string>): Dir {
    if queue == [] || total <= budget then d
    else if queue[0].name in spare then Sweep(queue[1..], d, total, budget, spare)
    else Sweep(queue[1..], Unlink(d, queue[0].name), total - queue[0].size, budget, spare)
  }

  /** The newest managed snapshot and the protected one are kept. */
  function Kept(d: Dir, protect: Option<string>): set<string> {
    var queue := ByAge(Managed(d));
    (if queue == [] then {} else {queue[|queue| - 1].name}) + (if protect.Some? then {protect.value} else {})
  }

  function Enforce(d: Dir, budget: int, protect: Option<string>, stuck: set<string>): Dir {
    Sweep(ByAge(Managed(d)), d, ManagedBytes(d), budget, Kept(d, protect) + stuck)
  }

  // ---- the per-reason window ----

  function UnlinkAll(queue: Dir, d: Dir, stuck: set<string>): Dir {
    if queue == [] then d
    else UnlinkAll(queue[1..], if queue[0].name in stuck then d else Unlink(d, queue[0].name), stuck)
  }

  /** What lies beyond the newest `retain`, oldest first. */
  function Excess(d: Dir, reason: string, retain: nat): Dir {
    var queue := ByAge(WithReason(d, reason));
    if |queue| <= retain then [] else queue[..|queue| - retain]
  }

  function Prune(d: Dir, reason: string, retain: nat, stuck: set<string>): Dir {
    UnlinkAll(Excess(d, reason, retain), d, stuck)
  }

  // ---- limits ----

  const GIB: nat := 1024 * 1024 * 1024
  const MIN_TOTAL: nat := 2 * GIB
  const MIN_RESERVE: nat := 5 * GIB
  const CHECK_MIN_DB: nat := 256 * 1024 * 1024

  /** An integer override wins, then a positive setting, then max(2 GiB, six times the database). */
  function Ceiling(override_: Option<int>, setting: Option<nat>, dbBytes: nat): nat {
    if override_.Some? then Max(0, override_.value)
    else if setting.Some? then setting.value
    else Max(MIN_TOTAL, 6 * dbBytes)
  }

  function RetentionLimit(value: Option<int>, override_: Option<int>, keepDaily: Option<int>, reason: string): (n: nat)
    ensures n >= 1
  {
    if value.Some? then Max(1, value.value)
    else if override_.Some? then Max(1, override_.value)
    else if reason == "scheduled" && keepDaily.Some? && keepDaily.value >= 1 then keepDaily.value
    else if reason == "scheduled" then 7
    else 3
  }

  /** A small database or an unmeasurable volume is let through. */
  predicate HasSpace(dbBytes: nat, free: Option<nat>) {
    dbBytes < CHECK_MIN_DB || free.None? || free.value >= dbBytes + Max(MIN_RESERVE, dbBytes)
  }

  // ---- one snapshot ----

  datatype Write =
    | Written(mtime: int, size: nat)
    | Broke(partial: Option<(int, nat)>)   // the copy raised, perhaps leaving a file behind

  datatype World = World(ceiling: nat, dbBytes: nat, free: Option<nat>, write: Write, stuck: set<string>)

  datatype Result = Created(e: Entry) | NoSpace | Failed

  function Put(d: Dir, e: Entry): Dir {
    Unlink(d, e.name) + [e]
  }

  function Target(raw: string, stamp: string): string {
    Names.Print(Names.SafeReason(raw), stamp)
  }

  function Snapshot(raw: string, stamp: string, mtime: int, size: nat): Entry {
    Entry(Target(raw, stamp), Some(Names.SafeReason(raw)), mtime, size)
  }

  /** Room is made before writing, leaving the incoming snapshot's size out of the budget. */
  function Cleared(d: Dir, w: World): Dir {
    Enforce(d, Max(0, w.ceiling - w.dbBytes), None, w.stuck)
  }

  function Removed(d: Dir, name: string, stuck: set<string>): Dir {
    if name in stuck then d else Unlink(d, name)
  }

  /** A failed copy: whatever it left under the target's name is deleted again. */
  function CleanedUp(cleared: Dir, raw: string, stamp: string, partial: Option<(int, nat)>, stuck: set<string>): Dir {
    match partial
    case None => Removed(cleared, Target(raw, stamp), stuck)
    case Some((mtime, size)) => Removed(Put(cleared, Snapshot(raw, stamp, mtime, size)), Target(raw, stamp), stuck)
  }

  /** A finished copy: the reason's window first, then the global ceiling as a backstop. */
  function Stored(cleared: Dir, e: Entry, reason: string, retain: nat, w: World): Dir {
    Enforce(Prune(Put(cleared, e), reason, retain, w.stuck), w.ceiling, Some(e.name), w.stuck)
  }

  function Create(d: Dir, w: World, raw: string, stamp: string, retain: nat): (Dir, Result) {
    var cleared := Cleared(d, w);
    if !HasSpace(w.dbBytes, w.free) then (cleared, NoSpace)
    else
      match w.write
      case Broke(partial) => (CleanedUp(cleared, raw, stamp, partial, w.stuck), Failed)
      case Written(mtime, size) =>
        var e := Snapshot(raw, stamp, mtime, size);
        (Stored(cleared, e, Names.SafeReason(raw), retain, w), Created(e))
  }
}
