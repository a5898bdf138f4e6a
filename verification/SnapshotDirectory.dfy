/**
 * The snapshot directory as it is updated in place (forven/backups.py,
 * _enforce_total_size_ceiling, _prune_managed_backups, create_managed_db_backup).
 * Each method is proved to do what its function in SnapshotStore says.
 */
module SnapshotDirectory {
  import opened Basics
  import opened SnapshotStore
  import Names = SnapshotNames

  class Directory {
    var files: Dir

    constructor (listing: Dir)
      ensures files == listing
    {
      files := listing;
    }

    /** Deletes oldest snapshots across reasons until the running total meets the budget. */
    method EnforceTotalSizeCeiling(budget: int, protect: Option<string>, stuck: set<string>)
      returns (removed: seq<string>)
      modifies this
      ensures files == Enforce(old(files), budget, protect, stuck)
    {
      removed := [];
      var queue := ByAge(Managed(files));
      var total: int := ManagedBytes(files);
      if queue == [] || total <= budget {
        return;
      }
      var keep := {queue[|queue| - 1].name};
      if protect.Some? {
        keep := keep + {protect.value};
      }
      ghost var spare := keep + stuck;
      assert keep == Kept(files, protect);
      assert queue[0..] == queue;
      for i := 0 to |queue|
        invariant Sweep(queue[i..], files, total, budget, spare) == Enforce(old(files), budget, protect, stuck)
      {
        assert queue[i..][0] == queue[i] && queue[i..][1..] == queue[i + 1..];
        if total <= budget {
          break;
        }
        if queue[i].name in keep || queue[i].name in stuck {
          continue;
        }
        files := Unlink(files, queue[i].name);
        removed := removed + [queue[i].name];
        total := total - queue[i].size;
      }
    }

    /** Deletes this reason's snapshots beyond the newest `retain`. */
    method PruneManagedBackups(reason: string, retain: nat, stuck: set<string>) returns (removed: seq<string>)
      modifies this
      ensures files == Prune(old(files), reason, retain, stuck)
    {
      removed := [];
      var queue := Excess(files, reason, retain);
      assert queue[0..] == queue;
      for i := 0 to |queue|
        invariant UnlinkAll(queue[i..], files, stuck) == Prune(old(files), reason, retain, stuck)
      {
        assert queue[i..][0] == queue[i] && queue[i..][1..] == queue[i + 1..];
        if queue[i].name !in stuck {
          files := Unlink(files, queue[i].name);
          removed := removed + [queue[i].name];
        }
      }
    }

    /** Writes a snapshot: room first, then the free-space check, the copy, the window and the ceiling. */
    method CreateManagedDbBackup(w: World, raw: string, stamp: string, retain: nat) returns (result: Result)
      modifies this
      ensures (files, result) == Create(old(files), w, raw, stamp, retain)
    {
      var reason := Names.SafeReason(raw);
      var target := Names.Print(reason, stamp);
      var _ := EnforceTotalSizeCeiling(Max(0, w.ceiling - w.dbBytes), None, w.stuck);
      if !HasSpace(w.dbBytes, w.free) {
        return NoSpace;
      }
      match w.write {
        case Broke(partial) =>
          if partial.Some? {
            files := Put(files, Entry(target, Some(reason), partial.value.0, partial.value.1));
          }
          if target !in w.stuck {
            files := Unlink(files, target);
          }
          return Failed;
        case Written(mtime, size) =>
          var created := Entry(target, Some(reason), mtime, size);
          files := Put(files, created);
          var _ := PruneManagedBackups(reason, retain, w.stuck);
          var _ := EnforceTotalSizeCeiling(w.ceiling, Some(target), w.stuck);
          return Created(created);
      }
    }
  }
}
