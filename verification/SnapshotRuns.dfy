/** One whole snapshot, on every path, and runs of snapshots. */
module SnapshotRuns {
  import opened Basics
  import Names = SnapshotNames
  import opened SnapshotStore
  import opened SnapshotSafety

  // ---- counting ----

  lemma {:induction false} UnlinkCounts(d: Dir, e: Entry)
    requires e in d
    ensures |Unlink(d, e.name)| < |d|
  {
    if d[0].name == e.name {
      UnlinkNeverGrows(d[1..], e.name);
    } else {
      UnlinkCounts(d[1..], e);
    }
  }

  lemma {:induction false} UnlinkNeverGrows(d: Dir, name: string)
    ensures |Unlink(d, name)| <= |d|
  {
    if d != [] { UnlinkNeverGrows(d[1..], name); }
  }

  /** Distinct entries drawn from a list are no more than the list. */
  lemma {:induction false} Pigeonhole(a: Dir, b: Dir)
    requires Distinct(a) && forall e :: e in a ==> e in b
    ensures |a| <= |b|
  {
    if a != [] {
      assert a[0] in b;
      UnlinkCounts(b, a[0]);
      UnlinkMembers(b, a[0].name);
      Pigeonhole(a[1..], Unlink(b, a[0].name));
    }
  }

  function Count(d: Dir, reason: string): nat {
    |WithReason(d, reason)|
  }

  lemma CountShrinks(d: Dir, d': Dir, reason: string)
    requires Distinct(d') && forall e :: e in d' && HasReason(e, reason) ==> e in d
    ensures Count(d', reason) <= Count(d, reason)
  {
    ReasonDistinct(d', reason);
    ReasonMembers(d', reason);
    ReasonMembers(d, reason);
    Pigeonhole(WithReason(d', reason), WithReason(d, reason));
  }

  /** A reason's snapshots, oldest first, split into the excess and the window. */
  lemma WindowSplit(d: Dir, reason: string, retain: nat) returns (queue: Dir, cut: nat)
    requires Distinct(d)
    ensures cut <= |queue| == Count(d, reason) && |queue| - cut == Min(|queue|, retain)
    ensures Excess(d, reason, retain) == queue[..cut] && Sorted(queue) && Distinct(queue)
    ensures forall e :: e in queue <==> e in d && HasReason(e, reason)
  {
    queue := ByAge(WithReason(d, reason));
    cut := if |queue| <= retain then 0 else |queue| - retain;
    ReasonDistinct(d, reason);
    ReasonMembers(d, reason);
    ByAgeMembers(WithReason(d, reason));
    ByAgeSorts(WithReason(d, reason));
  }

  /** With working deletions the survivors of the reason are exactly the window. */
  lemma PruneLeavesWindow(d: Dir, reason: string, retain: nat, queue: Dir, cut: nat, e: Entry)
    requires Distinct(d) && cut <= |queue| && Excess(d, reason, retain) == queue[..cut] && Distinct(queue)
    requires forall x :: x in queue <==> x in d && HasReason(x, reason)
    ensures e in WithReason(Prune(d, reason, retain, {}), reason) <==> e in queue[cut..]
  {
    PruneTouchesOneReason(d, reason, retain, {});
    ReasonMembers(Prune(d, reason, retain, {}), reason);
    assert queue == queue[..cut] + queue[cut..];
    if e in queue[cut..] { NotOnBothSides(queue, cut, e); }
  }

  lemma {:induction false} NotOnBothSides(s: Dir, cut: nat, e: Entry)
    requires Distinct(s) && cut <= |s| && e in s[cut..]
    ensures e !in s[..cut]
  {
    if cut > 0 {
      assert s[cut..] == s[1..][cut - 1..] && s[..cut] == [s[0]] + s[1..][..cut - 1];
      NotOnBothSides(s[1..], cut - 1, e);
      assert forall x :: x in s[1..][cut - 1..] ==> x in s[1..];
    }
  }

  /**
   * Pruning keeps as many snapshots of the reason as its window allows, no more and no fewer (undeletable
   * files aside).
   */
  lemma PruneMeetsWindow(d: Dir, reason: string, retain: nat)
    requires Distinct(d)
    ensures Count(Prune(d, reason, retain, {}), reason) == Min(Count(d, reason), retain)
  {
    var left := WithReason(Prune(d, reason, retain, {}), reason);
    var queue, cut := WindowSplit(d, reason, retain);
    PruneTouchesOneReason(d, reason, retain, {});
    ReasonDistinct(Prune(d, reason, retain, {}), reason);
    SuffixDistinct(queue, cut);
    forall e ensures e in left <==> e in queue[cut..] { PruneLeavesWindow(d, reason, retain, queue, cut, e); }
    Pigeonhole(left, queue[cut..]);
    Pigeonhole(queue[cut..], left);
  }

  /** And it keeps the newest: whatever of the reason went is older than whatever of it stayed. */
  lemma PruneKeepsTheNewest(d: Dir, reason: string, retain: nat, gone: Entry, kept: Entry)
    requires Distinct(d) && gone in d && kept in d && HasReason(gone, reason) && HasReason(kept, reason)
    requires var d' := Prune(d, reason, retain, {}); gone !in d' && kept in d'
    ensures Older(gone, kept)
  {
    var queue, cut := WindowSplit(d, reason, retain);
    PruneTouchesOneReason(d, reason, retain, {});
    SplitOrder(queue, cut, gone, kept);
  }

  lemma {:induction false} SplitOrder(s: Dir, cut: nat, a: Entry, b: Entry)
    requires Sorted(s) && cut <= |s| && a in s[..cut] && b in s && b !in s[..cut]
    ensures Older(a, b)
  {
    assert s[..cut] == [s[0]] + s[1..][..cut - 1];
    if a != s[0] { SplitOrder(s[1..], cut - 1, a, b); }
  }

  lemma {:induction false} LastNotInPrefix(s: Dir, k: nat)
    requires Distinct(s) && k < |s|
    ensures s[|s| - 1] !in s[..k]
  {
    if k > 0 {
      LastNotInPrefix(s[1..], k - 1);
      assert s[..k] == [s[0]] + s[1..][..k - 1];
      assert s[|s| - 1] == s[1..][|s| - 2] && s[|s| - 1] in s[1..];
    }
  }

  /** A window of at least one never takes the newest snapshot of the directory. */
  lemma NewestNotInExcess(d: Dir, reason: string, retain: nat, e: Entry)
    requires Distinct(d) && retain >= 1 && IsNewest(e, d)
    ensures e !in Excess(d, reason, retain)
  {
    ReasonDistinct(d, reason);
    ReasonMembers(d, reason);
    var queue := ByAge(WithReason(d, reason));
    ByAgeMembers(WithReason(d, reason));
    ByAgeSorts(WithReason(d, reason));
    if e in queue && |queue| > retain {
      LastIsNewest(queue, e);
      var last := queue[|queue| - 1];
      if last != e { OlderAsymmetric(last, e); }
      LastNotInPrefix(queue, |queue| - retain);
    }
  }

  lemma {:induction false} OnlyOneManaged(d: Dir, e: Entry)
    requires Distinct(d) && forall x :: x in d && IsManaged(x) ==> x == e
    ensures ManagedBytes(d) <= e.size
  {
    if d != [] {
      if d[0] == e {
        NoneManaged(d[1..]);
      } else {
        OnlyOneManaged(d[1..], e);
      }
    }
  }

  lemma {:induction false} NoneManaged(d: Dir)
    requires forall x :: x in d ==> !IsManaged(x)
    ensures ManagedBytes(d) == 0
  {
    if d != [] { NoneManaged(d[1..]); }
  }

  lemma KeptIsNewest(d: Dir, e: Entry)
    requires Distinct(d) && IsNewest(e, d)
    ensures Kept(d, Some(e.name)) == {e.name}
  {
    NewestIsLast(d, e);
  }

  // ---- writing ----

  lemma {:induction false} SnocDistinct(d: Dir, e: Entry)
    requires Distinct(d) && Absent(d, e.name)
    ensures Distinct(d + [e])
  {
    if d != [] {
      SnocDistinct(d[1..], e);
      assert d + [e] == [d[0]] + (d[1..] + [e]);
      DistinctCons(d[0], d[1..] + [e]);
    }
  }

  lemma PutLaw(d: Dir, e: Entry)
    requires Distinct(d)
    ensures Distinct(Put(d, e)) && forall x :: x in Put(d, e) <==> x == e || (x in d && x.name != e.name)
  {
    UnlinkDistinct(d, e.name);
    UnlinkMembers(d, e.name);
    SnocDistinct(Unlink(d, e.name), e);
  }

  lemma TargetIsClassified(raw: string, stamp: string)
    requires Names.IsStamp(stamp)
    ensures ReasonOf(Target(raw, stamp)) == Some(Names.SafeReason(raw))
  {
    Names.SafeReasonIsCanonical(raw);
    Names.ParsePrinted(Names.SafeReason(raw), stamp);
    Names.PrintedParts(Names.SafeReason(raw), stamp);
  }

  /** The incoming snapshot is younger than every managed one. */
  predicate Youngest(d: Dir, mtime: int) {
    forall x :: x in d && IsManaged(x) ==> x.mtime < mtime
  }

  /** Room is made, the snapshot written: it is the newest, and nothing but swept or same-named files is gone. */
  lemma WrittenIsNewest(d: Dir, budget: int, e: Entry)
    requires Distinct(d) && Youngest(d, e.mtime) && e.reason.Some?
    ensures var d2 := Put(Enforce(d, budget, None, {}), e);
            && Distinct(d2) && IsNewest(e, d2)
            && forall x :: x in d2 ==> x == e || (x in d && x.name != e.name)
  {
    EnforceLaw(d, budget, None, {});
    PutLaw(Enforce(d, budget, None, {}), e);
  }

  lemma StoredLaw(d: Dir, w: World, e: Entry, reason: string, retain: nat)
    requires Distinct(d) && retain >= 1 && w.stuck == {} && Youngest(d, e.mtime) && e.reason.Some?
    ensures var d' := Stored(Cleared(d, w), e, reason, retain, w);
            && Distinct(d') && IsNewest(e, d') && Count(d', reason) <= retain
            && ManagedBytes(d') <= Max(w.ceiling, e.size)
            && forall x :: x in d' ==> x == e || (x in d && x.name != e.name)
  {
    var d2 := Put(Cleared(d, w), e);
    WrittenIsNewest(d, Max(0, w.ceiling - w.dbBytes), e);
    PrunedKeepsNewest(d2, reason, retain, e);
    EnforcedBound(Prune(d2, reason, retain, {}), w.ceiling, e, reason);
  }

  /**
   * A successful snapshot (younger than the others, deletions working): the file exists,
   * its reason is within its window, and managed bytes are within the larger of the
   * ceiling and the snapshot itself.
   */
  lemma CreatedLaw(d: Dir, w: World, raw: string, stamp: string, retain: nat)
    requires Distinct(d) && retain >= 1 && w.stuck == {} && HasSpace(w.dbBytes, w.free)
    requires w.write.Written? && Youngest(d, w.write.mtime)
    ensures var (d', r) := Create(d, w, raw, stamp, retain);
            && r == Created(Snapshot(raw, stamp, w.write.mtime, w.write.size))
            && Distinct(d') && IsNewest(r.e, d')
            && Count(d', Names.SafeReason(raw)) <= retain
            && ManagedBytes(d') <= Max(w.ceiling, r.e.size)
            && forall x :: x in d' ==> x == r.e || (x in d && x.name != r.e.name)
  {
    StoredLaw(d, w, Snapshot(raw, stamp, w.write.mtime, w.write.size), Names.SafeReason(raw), retain);
  }

  /**
   * With neither an override nor a setting the ceiling itself is met: a snapshot no larger
   * than the live database always fits it.
   */
  lemma DefaultCeilingIsMet(d: Dir, w: World, raw: string, stamp: string, retain: nat)
    requires Distinct(d) && retain >= 1 && w.stuck == {} && HasSpace(w.dbBytes, w.free)
    requires w.write.Written? && Youngest(d, w.write.mtime)
    requires w.ceiling == Ceiling(None, None, w.dbBytes) && w.write.size <= w.dbBytes
    ensures ManagedBytes(Create(d, w, raw, stamp, retain).0) <= w.ceiling
  {
    CreatedLaw(d, w, raw, stamp, retain);
  }

  lemma PrunedKeepsNewest(d: Dir, reason: string, retain: nat, e: Entry)
    requires Distinct(d) && retain >= 1 && IsNewest(e, d)
    ensures var d' := Prune(d, reason, retain, {});
            Distinct(d') && IsNewest(e, d') && Count(d', reason) <= retain && forall x :: x in d' ==> x in d
  {
    PruneTouchesOneReason(d, reason, retain, {});
    PruneMeetsWindow(d, reason, retain);
    NewestNotInExcess(d, reason, retain, e);
    ExcessIsQueued(d, reason, retain);
    UnlinkAllLaw(Excess(d, reason, retain), d, {});
  }

  lemma EnforcedBound(d: Dir, ceiling: nat, e: Entry, reason: string)
    requires Distinct(d) && IsNewest(e, d)
    ensures var d' := Enforce(d, ceiling, Some(e.name), {});
            && Distinct(d') && IsNewest(e, d') && ManagedBytes(d') <= Max(ceiling, e.size)
            && Count(d', reason) <= Count(d, reason) && forall x :: x in d' ==> x in d
  {
    var d' := Enforce(d, ceiling, Some(e.name), {});
    EnforceLaw(d, ceiling, Some(e.name), {});
    KeptIsNewest(d, e);
    CountShrinks(d, d', reason);
    if ManagedBytes(d') > ceiling {
      forall x | x in d' && IsManaged(x) ensures x == e {
        assert x.name == e.name;
        SameNameSameEntry(d, e, x);
      }
      OnlyOneManaged(d', e);
    }
  }

  // ---- the raising paths ----

  predicate Raises(w: World) {
    !HasSpace(w.dbBytes, w.free) || w.write.Broke?
  }

  /** After a failed copy nothing of the target's name is left and every other file is as it was. */
  lemma CleanedUpLaw(d: Dir, raw: string, stamp: string, partial: Option<(int, nat)>, stuck: set<string>)
    requires Distinct(d) && Target(raw, stamp) !in stuck
    ensures var d' := CleanedUp(d, raw, stamp, partial, stuck);
            Distinct(d') && forall x :: x in d' <==> x in d && x.name != Target(raw, stamp)
  {
    var target := Target(raw, stamp);
    match partial
    case None =>
      UnlinkMembers(d, target);
      UnlinkDistinct(d, target);
    case Some((mtime, size)) =>
      var e := Snapshot(raw, stamp, mtime, size);
      PutLaw(d, e);
      UnlinkMembers(Put(d, e), target);
      UnlinkDistinct(Put(d, e), target);
  }

  /**
   * On every raising path, with any undeletable files: the newest earlier snapshot is
   * still there unless the failed copy took over its very name, and no file of the
   * target's name is left behind by the failed copy.
   */
  lemma RaisingLaw(d: Dir, w: World, raw: string, stamp: string, retain: nat, newest: Entry)
    requires Distinct(d) && Raises(w) && IsNewest(newest, d) && Target(raw, stamp) !in w.stuck
    ensures var (d', r) := Create(d, w, raw, stamp, retain);
            && !r.Created? && Distinct(d') && (forall x :: x in d' ==> x in d)
            && (newest in d' <==> !(r.Failed? && newest.name == Target(raw, stamp)))
            && (r.Failed? ==> Absent(d', Target(raw, stamp)))
  {
    var cleared := Cleared(d, w);
    ClearedLaw(d, w, newest);
    if HasSpace(w.dbBytes, w.free) {
      CleanedUpLaw(cleared, raw, stamp, w.write.partial, w.stuck);
      assert Create(d, w, raw, stamp, retain) == (CleanedUp(cleared, raw, stamp, w.write.partial, w.stuck), Failed);
    } else {
      assert Create(d, w, raw, stamp, retain) == (cleared, NoSpace);
    }
  }

  lemma ClearedLaw(d: Dir, w: World, newest: Entry)
    requires Distinct(d) && IsNewest(newest, d)
    ensures Distinct(Cleared(d, w)) && newest in Cleared(d, w) && forall x :: x in Cleared(d, w) ==> x in d
  {
    EnforceLaw(d, Max(0, w.ceiling - w.dbBytes), None, w.stuck);
    NewestIsKept(d, None, newest);
  }

  // ---- what is never touched ----

  lemma PutSparesUnmanaged(d: Dir, e: Entry, x: Entry)
    requires Distinct(d) && Classified(d) && e.reason == ReasonOf(e.name) && IsManaged(e) && !IsManaged(x)
    ensures x in Put(d, e) <==> x in d
    ensures Distinct(Put(d, e)) && Classified(Put(d, e))
  {
    PutLaw(d, e);
    assert forall y :: y in d && y.name == e.name ==> IsManaged(y);
  }

  lemma RemovedSparesUnmanaged(d: Dir, name: string, stuck: set<string>, x: Entry)
    requires Distinct(d) && Classified(d) && ReasonOf(name).Some? && !IsManaged(x)
    ensures x in Removed(d, name, stuck) <==> x in d
    ensures Distinct(Removed(d, name, stuck)) && Classified(Removed(d, name, stuck))
  {
    UnlinkMembers(d, name);
    UnlinkDistinct(d, name);
    assert forall y :: y in d && y.name == name ==> IsManaged(y);
  }

  lemma EnforceSparesUnmanaged(d: Dir, budget: int, protect: Option<string>, stuck: set<string>, x: Entry)
    requires Distinct(d) && Classified(d) && !IsManaged(x)
    ensures var d' := Enforce(d, budget, protect, stuck); (x in d' <==> x in d) && Distinct(d') && Classified(d')
  {
    EnforceLaw(d, budget, protect, stuck);
  }

  lemma PruneSparesUnmanaged(d: Dir, reason: string, retain: nat, stuck: set<string>, x: Entry)
    requires Distinct(d) && Classified(d) && !IsManaged(x)
    ensures var d' := Prune(d, reason, retain, stuck); (x in d' <==> x in d) && Distinct(d') && Classified(d')
  {
    PruneTouchesOneReason(d, reason, retain, stuck);
  }

  lemma CleanedUpSparesUnmanaged(d: Dir, raw: string, stamp: string, partial: Option<(int, nat)>, stuck: set<string>,
                                 x: Entry)
    requires Distinct(d) && Classified(d) && Names.IsStamp(stamp) && !IsManaged(x)
    ensures var d' := CleanedUp(d, raw, stamp, partial, stuck); (x in d' <==> x in d) && Distinct(d') && Classified(d')
  {
    TargetIsClassified(raw, stamp);
    match partial
    case None => RemovedSparesUnmanaged(d, Target(raw, stamp), stuck, x);
    case Some((mtime, size)) =>
      var e := Snapshot(raw, stamp, mtime, size);
      PutSparesUnmanaged(d, e, x);
      RemovedSparesUnmanaged(Put(d, e), Target(raw, stamp), stuck, x);
  }

  lemma StoredSparesUnmanaged(d: Dir, raw: string, stamp: string, mtime: int, size: nat, retain: nat, w: World,
                              x: Entry)
    requires Distinct(d) && Classified(d) && Names.IsStamp(stamp) && !IsManaged(x)
    ensures var d' := Stored(d, Snapshot(raw, stamp, mtime, size), Names.SafeReason(raw), retain, w);
            (x in d' <==> x in d) && Distinct(d') && Classified(d')
  {
    var e, reason := Snapshot(raw, stamp, mtime, size), Names.SafeReason(raw);
    TargetIsClassified(raw, stamp);
    PutSparesUnmanaged(d, e, x);
    PruneSparesUnmanaged(Put(d, e), reason, retain, w.stuck, x);
    EnforceSparesUnmanaged(Prune(Put(d, e), reason, retain, w.stuck), w.ceiling, Some(e.name), w.stuck, x);
  }

  /** On every path, with any undeletable files, files outside the name grammar are left exactly as they were. */
  lemma UnmanagedIsUntouched(d: Dir, w: World, raw: string, stamp: string, retain: nat, x: Entry)
    requires Distinct(d) && Classified(d) && Names.IsStamp(stamp) && !IsManaged(x)
    ensures var d' := Create(d, w, raw, stamp, retain).0; (x in d' <==> x in d) && Distinct(d') && Classified(d')
  {
    var cleared := Cleared(d, w);
    EnforceSparesUnmanaged(d, Max(0, w.ceiling - w.dbBytes), None, w.stuck, x);
    if HasSpace(w.dbBytes, w.free) {
      match w.write
      case Broke(partial) =>
        CleanedUpSparesUnmanaged(cleared, raw, stamp, partial, w.stuck, x);
      case Written(mtime, size) =>
        StoredSparesUnmanaged(cleared, raw, stamp, mtime, size, retain, w, x);
    }
  }

  // ---- runs ----

  datatype Op = Op(w: World, raw: string, stamp: string)

  /** Any sequence of snapshots, each reason with its own fixed window. */
  function Run(d: Dir, ops: seq<Op>, limit: string -> nat): Dir {
    if ops == [] then d
    else
      var op := ops[|ops| - 1];
      Create(Run(d, ops[..|ops| - 1], limit), op.w, op.raw, op.stamp, limit(Names.SafeReason(op.raw))).0
  }

  /** Deletions work, the stamp is new, and time moves forward. */
  predicate Orderly(d: Dir, op: Op) {
    && Names.IsStamp(op.stamp) && op.w.stuck == {} && Absent(d, Target(op.raw, op.stamp))
    && (op.w.write.Written? ==> Youngest(d, op.w.write.mtime))
  }

  predicate OrderlyRun(d: Dir, ops: seq<Op>, limit: string -> nat) {
    ops == [] || (OrderlyRun(d, ops[..|ops| - 1], limit) && Orderly(Run(d, ops[..|ops| - 1], limit), ops[|ops| - 1]))
  }

  ghost predicate Healthy(d: Dir, limit: string -> nat) {
    Distinct(d) && forall reason :: Count(d, reason) <= limit(reason)
  }

  lemma FailureShrinks(d: Dir, op: Op, retain: nat)
    requires Distinct(d) && Orderly(d, op) && Raises(op.w)
    ensures var d' := Create(d, op.w, op.raw, op.stamp, retain).0; Distinct(d') && forall e :: e in d' ==> e in d
  {
    EnforceLaw(d, Max(0, op.w.ceiling - op.w.dbBytes), None, op.w.stuck);
    if op.w.write.Broke? {
      CleanedUpLaw(Cleared(d, op.w), op.raw, op.stamp, op.w.write.partial, op.w.stuck);
    }
  }

  lemma CreateKeepsHealth(d: Dir, op: Op, limit: string -> nat)
    requires Healthy(d, limit) && Orderly(d, op) && forall r :: limit(r) >= 1
    ensures Healthy(Create(d, op.w, op.raw, op.stamp, limit(Names.SafeReason(op.raw))).0, limit)
  {
    var own := Names.SafeReason(op.raw);
    var d' := Create(d, op.w, op.raw, op.stamp, limit(own)).0;
    if Raises(op.w) {
      FailureShrinks(d, op, limit(own));
      forall reason ensures Count(d', reason) <= limit(reason) { CountShrinks(d, d', reason); }
    } else {
      CreatedLaw(d, op.w, op.raw, op.stamp, limit(own));
      forall reason ensures Count(d', reason) <= limit(reason) {
        if reason != own { CountShrinks(d, d', reason); }
      }
    }
  }

  /** Over every orderly run every reason stays within its window, whatever other reasons do. */
  lemma {:induction false} RunsKeepWindows(d: Dir, ops: seq<Op>, limit: string -> nat)
    requires Healthy(d, limit) && OrderlyRun(d, ops, limit) && forall r :: limit(r) >= 1
    ensures Healthy(Run(d, ops, limit), limit)
  {
    if ops != [] {
      RunsKeepWindows(d, ops[..|ops| - 1], limit);
      CreateKeepsHealth(Run(d, ops[..|ops| - 1], limit), ops[|ops| - 1], limit);
    }
  }

  /** Over every orderly run a directory that has a recovery point keeps one. */
  lemma {:induction false} RunsKeepARecoveryPoint(d: Dir, ops: seq<Op>, limit: string -> nat, e: Entry)
    returns (e': Entry)
    requires Healthy(d, limit) && OrderlyRun(d, ops, limit) && IsNewest(e, d) && forall r :: limit(r) >= 1
    ensures IsNewest(e', Run(d, ops, limit))
  {
    if ops == [] {
      e' := e;
    } else {
      var op := ops[|ops| - 1];
      var before := Run(d, ops[..|ops| - 1], limit);
      var retain := limit(Names.SafeReason(op.raw));
      e' := RunsKeepARecoveryPoint(d, ops[..|ops| - 1], limit, e);
      RunsKeepWindows(d, ops[..|ops| - 1], limit);
      if Raises(op.w) {
        RaisingLaw(before, op.w, op.raw, op.stamp, retain, e');
        FailureShrinks(before, op, retain);
      } else {
        CreatedLaw(before, op.w, op.raw, op.stamp, retain);
        e' := Snapshot(op.raw, op.stamp, op.w.write.mtime, op.w.write.size);
      }
    }
  }
}
