/** What retention guarantees, for one snapshot and over runs of them. */
module SnapshotSafety {
  import opened Basics
  import Text
  import opened SnapshotStore

  // ---- listings ----

  lemma {:induction false} ManagedMembers(d: Dir)
    ensures forall e :: e in Managed(d) <==> e in d && IsManaged(e)
    ensures |Managed(d)| <= |d|
  {
    if d != [] { ManagedMembers(d[1..]); }
  }

  lemma {:induction false} ReasonMembers(d: Dir, reason: string)
    ensures forall e :: e in WithReason(d, reason) <==> e in d && HasReason(e, reason)
  {
    if d != [] { ReasonMembers(d[1..], reason); }
  }

  /** Deleting a name removes exactly the entry with that name. */
  lemma {:induction false} UnlinkMembers(d: Dir, name: string)
    ensures forall e :: e in Unlink(d, name) <==> e in d && e.name != name
  {
    if d != [] { UnlinkMembers(d[1..], name); }
  }

  lemma DistinctCons(e: Entry, d: Dir)
    requires Distinct(d) && Absent(d, e.name)
    ensures Distinct([e] + d)
  {
    assert ([e] + d)[1..] == d;
  }

  lemma {:induction false} UnlinkDistinct(d: Dir, name: string)
    requires Distinct(d)
    ensures Distinct(Unlink(d, name))
  {
    if d != [] {
      UnlinkDistinct(d[1..], name);
      UnlinkMembers(d[1..], name);
      if d[0].name != name { DistinctCons(d[0], Unlink(d[1..], name)); }
    }
  }

  lemma {:induction false} UnlinkAbsent(d: Dir, name: string)
    requires Absent(d, name)
    ensures Unlink(d, name) == d
  {
    if d != [] { UnlinkAbsent(d[1..], name); }
  }

  lemma SameNameSameEntry(d: Dir, e: Entry, x: Entry)
    requires Distinct(d) && e in d && x in d && x.name == e.name
    ensures x == e
  {
    if d[0] != e && d[0] != x { SameNameSameEntry(d[1..], e, x); }
  }

  /** Deleting a managed snapshot frees exactly its bytes. */
  lemma {:induction false} UnlinkFrees(d: Dir, e: Entry)
    requires Distinct(d) && e in d && IsManaged(e)
    ensures ManagedBytes(Unlink(d, e.name)) == ManagedBytes(d) - e.size
  {
    if d[0] == e {
      UnlinkAbsent(d[1..], e.name);
      assert Unlink(d, e.name) == d[1..];
    } else {
      UnlinkFrees(d[1..], e);
      assert Unlink(d, e.name)[1..] == Unlink(d[1..], e.name);
    }
  }

  /** One deletion during a sweep, all at once. */
  lemma UnlinkLaw(d: Dir, e: Entry)
    requires Distinct(d) && e in d && IsManaged(e)
    ensures var d' := Unlink(d, e.name);
            && Distinct(d') && ManagedBytes(d') == ManagedBytes(d) - e.size
            && forall x :: x in d' <==> x in d && x != e
  {
    UnlinkDistinct(d, e.name);
    UnlinkMembers(d, e.name);
    UnlinkFrees(d, e);
    forall x | x in d && x.name == e.name ensures x == e { SameNameSameEntry(d, e, x); }
  }

  // ---- sorting ----

  lemma {:induction false} InsertMembers(e: Entry, s: Dir)
    ensures forall x :: x in Insert(e, s) <==> x == e || x in s
    ensures |Insert(e, s)| == 1 + |s|
  {
    if s != [] && !Older(e, s[0]) {
      InsertMembers(e, s[1..]);
    }
  }

  lemma {:induction false} ByAgeMembers(d: Dir)
    ensures forall x :: x in ByAge(d) <==> x in d
    ensures |ByAge(d)| == |d|
  {
    if d != [] {
      ByAgeMembers(d[1..]);
      InsertMembers(d[0], ByAge(d[1..]));
    }
  }

  lemma OlderTransitive(a: Entry, b: Entry, c: Entry)
    requires Older(a, b) && Older(b, c)
    ensures Older(a, c)
  {
    if a.mtime == b.mtime == c.mtime { Text.LessTransitive(a.name, b.name, c.name); }
  }

  lemma OlderTotal(a: Entry, b: Entry)
    requires a.name != b.name
    ensures Older(a, b) || Older(b, a)
  {
    Text.LessTotal(a.name, b.name);
  }

  lemma OlderAsymmetric(a: Entry, b: Entry)
    requires Older(a, b)
    ensures !Older(b, a)
  {
    Text.LessIrreflexive(a.name);
    if a.mtime == b.mtime && Text.Less(b.name, a.name) { Text.LessTransitive(a.name, b.name, a.name); }
  }

  lemma {:induction false} InsertSorts(e: Entry, s: Dir)
    requires Sorted(s) && Absent(s, e.name)
    ensures Sorted(Insert(e, s))
  {
    if s != [] {
      if Older(e, s[0]) {
        forall x | x in s ensures Older(e, x) { if x != s[0] { OlderTransitive(e, s[0], x); } }
        assert ([e] + s)[1..] == s;
      } else {
        OlderTotal(e, s[0]);
        InsertSorts(e, s[1..]);
        InsertMembers(e, s[1..]);
        assert Insert(e, s)[1..] == Insert(e, s[1..]);
      }
    }
  }

  lemma {:induction false} ByAgeSorts(d: Dir)
    requires Distinct(d)
    ensures Sorted(ByAge(d)) && Distinct(ByAge(d))
  {
    if d != [] {
      ByAgeSorts(d[1..]);
      ByAgeMembers(d[1..]);
      InsertSorts(d[0], ByAge(d[1..]));
      InsertDistinct(d[0], ByAge(d[1..]));
    }
  }

  lemma {:induction false} InsertDistinct(e: Entry, s: Dir)
    requires Distinct(s) && Absent(s, e.name)
    ensures Distinct(Insert(e, s))
  {
    if s != [] {
      if Older(e, s[0]) {
        assert ([e] + s)[1..] == s;
      } else {
        InsertDistinct(e, s[1..]);
        InsertMembers(e, s[1..]);
        assert Insert(e, s)[1..] == Insert(e, s[1..]);
      }
    }
  }

  lemma {:induction false} ManagedDistinct(d: Dir)
    requires Distinct(d)
    ensures Distinct(Managed(d))
  {
    if d != [] {
      ManagedDistinct(d[1..]);
      ManagedMembers(d[1..]);
      if IsManaged(d[0]) { DistinctCons(d[0], Managed(d[1..])); }
    }
  }

  lemma {:induction false} ReasonDistinct(d: Dir, reason: string)
    requires Distinct(d)
    ensures Distinct(WithReason(d, reason))
  {
    if d != [] {
      ReasonDistinct(d[1..], reason);
      ReasonMembers(d[1..], reason);
      if HasReason(d[0], reason) { DistinctCons(d[0], WithReason(d[1..], reason)); }
    }
  }

  // ---- the sweep ----

  /** The files of `d` a sweep may delete, in order. */
  ghost predicate Queued(queue: Dir, d: Dir) {
    Distinct(queue) && forall e :: e in queue ==> e in d && IsManaged(e)
  }

  lemma QueuedRest(queue: Dir, d: Dir)
    requires queue != [] && Queued(queue, d) && Distinct(d)
    ensures Queued(queue[1..], d) && Queued(queue[1..], Unlink(d, queue[0].name)) && queue[0] !in queue[1..]
  {
    UnlinkLaw(d, queue[0]);
  }

  /** What the first queued file leaves of the directory. */
  function After(e: Entry, d: Dir, spare: set<string>): Dir {
    if e.name in spare then d else Unlink(d, e.name)
  }

  /** One turn of the sweep, the running total being the managed bytes throughout. */
  lemma SweepStep(queue: Dir, d: Dir, budget: int, spare: set<string>)
    requires Distinct(d) && Queued(queue, d) && queue != [] && ManagedBytes(d) > budget
    ensures var d1 := After(queue[0], d, spare);
            && Sweep(queue, d, ManagedBytes(d), budget, spare) == Sweep(queue[1..], d1, ManagedBytes(d1), budget, spare)
            && Distinct(d1) && Queued(queue[1..], d1) && queue[0] !in queue[1..]
            && forall x :: x in d1 <==> x in d && (x != queue[0] || x.name in spare)
  {
    QueuedRest(queue, d);
    UnlinkLaw(d, queue[0]);
  }

  lemma {:induction false} SweepShrinks(queue: Dir, d: Dir, budget: int, spare: set<string>)
    requires Distinct(d) && Queued(queue, d)
    ensures var d' := Sweep(queue, d, ManagedBytes(d), budget, spare); Distinct(d') && forall e :: e in d' ==> e in d
  {
    if queue != [] && ManagedBytes(d) > budget {
      SweepStep(queue, d, budget, spare);
      SweepShrinks(queue[1..], After(queue[0], d, spare), budget, spare);
    }
  }

  lemma {:induction false} SweepSpares(queue: Dir, d: Dir, budget: int, spare: set<string>, e: Entry)
    requires Distinct(d) && Queued(queue, d) && e in d && (e !in queue || e.name in spare)
    ensures e in Sweep(queue, d, ManagedBytes(d), budget, spare)
  {
    if queue != [] && ManagedBytes(d) > budget {
      SweepStep(queue, d, budget, spare);
      SweepSpares(queue[1..], After(queue[0], d, spare), budget, spare, e);
    }
  }

  lemma {:induction false} SweepMeetsBudget(queue: Dir, d: Dir, budget: int, spare: set<string>, e: Entry)
    requires Distinct(d) && Queued(queue, d) && e in queue
    ensures var d' := Sweep(queue, d, ManagedBytes(d), budget, spare);
            ManagedBytes(d') <= budget || e !in d' || e.name in spare
  {
    if ManagedBytes(d) > budget && e.name !in spare {
      SweepStep(queue, d, budget, spare);
      if queue[0] == e {
        SweepShrinks(queue[1..], After(e, d, spare), budget, spare);
      } else {
        SweepMeetsBudget(queue[1..], After(queue[0], d, spare), budget, spare, e);
      }
    }
  }

  /** A sweep deletes only queued files that are not spared, and goes on until the budget is met. */
  lemma SweepLaw(queue: Dir, d: Dir, budget: int, spare: set<string>)
    requires Distinct(d) && Queued(queue, d)
    ensures var d' := Sweep(queue, d, ManagedBytes(d), budget, spare);
            && Distinct(d') && (forall e :: e in d' ==> e in d)
            && (forall e :: e in d && (e !in queue || e.name in spare) ==> e in d')
            && (ManagedBytes(d') <= budget || forall e :: e in queue && e in d' ==> e.name in spare)
  {
    var d' := Sweep(queue, d, ManagedBytes(d), budget, spare);
    SweepShrinks(queue, d, budget, spare);
    forall e | e in d && (e !in queue || e.name in spare) ensures e in d' { SweepSpares(queue, d, budget, spare, e); }
    if ManagedBytes(d') > budget {
      forall e | e in queue && e in d' ensures e.name in spare { SweepMeetsBudget(queue, d, budget, spare, e); }
    }
  }

  /** Oldest first: of two deletable files the newer one goes only if the older one goes. */
  lemma {:induction false} SweepIsOldestFirst(queue: Dir, d: Dir, budget: int, spare: set<string>, a: Entry, b: Entry)
    requires Distinct(d) && Queued(queue, d) && Sorted(queue)
    requires a in queue && b in queue && Older(a, b) && a.name !in spare
    ensures var d' := Sweep(queue, d, ManagedBytes(d), budget, spare); b !in d' ==> a !in d'
  {
    if ManagedBytes(d) > budget {
      var e, d1 := queue[0], After(queue[0], d, spare);
      SweepStep(queue, d, budget, spare);
      if e == a {
        SweepShrinks(queue[1..], d1, budget, spare);
      } else if e == b {
        OlderAsymmetric(a, b);
      } else {
        SweepIsOldestFirst(queue[1..], d1, budget, spare, a, b);
      }
    }
  }

  /** Never more than needed: the newest file deleted would not have fitted in the budget. */
  lemma {:induction false} SweepIsMinimal(queue: Dir, d: Dir, budget: int, spare: set<string>)
    returns (last: Option<Entry>)
    requires Distinct(d) && Queued(queue, d)
    ensures var d' := Sweep(queue, d, ManagedBytes(d), budget, spare);
            match last
            case None => d' == d
            case Some(e) => e in queue && e !in d' && ManagedBytes(d') + e.size > budget
  {
    last := None;
    if queue != [] && ManagedBytes(d) > budget {
      var e, d1 := queue[0], After(queue[0], d, spare);
      SweepStep(queue, d, budget, spare);
      SweepShrinks(queue[1..], d1, budget, spare);
      last := SweepIsMinimal(queue[1..], d1, budget, spare);
      if last.None? && e.name !in spare {
        UnlinkLaw(d, e);
        last := Some(e);
      }
    }
  }

  // ---- enforcing the ceiling on a directory ----

  lemma QueueOf(d: Dir)
    requires Distinct(d)
    ensures Queued(ByAge(Managed(d)), d) && Sorted(ByAge(Managed(d)))
    ensures forall e :: e in ByAge(Managed(d)) <==> e in d && IsManaged(e)
  {
    ManagedDistinct(d);
    ManagedMembers(d);
    ByAgeMembers(Managed(d));
    ByAgeSorts(Managed(d));
  }

  ghost predicate IsNewest(e: Entry, d: Dir) {
    e in d && IsManaged(e) && forall x :: x in d && IsManaged(x) && x != e ==> Older(x, e)
  }

  lemma {:induction false} LastIsNewest(s: Dir, e: Entry)
    requires Sorted(s) && e in s
    ensures e == s[|s| - 1] || Older(e, s[|s| - 1])
  {
    if |s| > 1 {
      assert s[1..][|s| - 2] == s[|s| - 1];
      if e != s[0] { LastIsNewest(s[1..], e); }
    }
  }

  lemma LastByAge(m: Dir, e: Entry)
    requires Distinct(m) && e in m && forall x :: x in m && x != e ==> Older(x, e)
    ensures ByAge(m) != [] && ByAge(m)[|ByAge(m)| - 1] == e
  {
    var queue := ByAge(m);
    ByAgeMembers(m);
    ByAgeSorts(m);
    LastIsNewest(queue, e);
    var last := queue[|queue| - 1];
    if last != e { OlderAsymmetric(last, e); }
  }

  lemma NewestIsLast(d: Dir, e: Entry)
    requires Distinct(d) && IsNewest(e, d)
    ensures var queue := ByAge(Managed(d)); queue != [] && queue[|queue| - 1] == e
  {
    ManagedMembers(d);
    ManagedDistinct(d);
    LastByAge(Managed(d), e);
  }

  /** The last of the queue is the newest managed snapshot, and it is always among the kept names. */
  lemma NewestIsKept(d: Dir, protect: Option<string>, e: Entry)
    requires Distinct(d) && IsNewest(e, d)
    ensures e.name in Kept(d, protect)
  {
    NewestIsLast(d, e);
  }

  /**
   * The global sweep on any directory: it deletes only managed snapshots, never the
   * newest nor the protected one nor an undeletable one, and it either meets the budget
   * or has deleted every other managed snapshot.
   */
  lemma EnforceLaw(d: Dir, budget: int, protect: Option<string>, stuck: set<string>)
    requires Distinct(d)
    ensures var d' := Enforce(d, budget, protect, stuck);
            && Distinct(d') && (forall e :: e in d' ==> e in d)
            && (forall e :: e in d && (!IsManaged(e) || e.name in Kept(d, protect) + stuck) ==> e in d')
            && (ManagedBytes(d') <= budget
                || forall e :: e in d' && IsManaged(e) ==> e.name in Kept(d, protect) + stuck)
  {
    QueueOf(d);
    SweepLaw(ByAge(Managed(d)), d, budget, Kept(d, protect) + stuck);
  }

  /** Across reasons, the older of two deletable snapshots goes first. */
  lemma EnforceIsOldestFirst(d: Dir, budget: int, protect: Option<string>, stuck: set<string>, a: Entry, b: Entry)
    requires Distinct(d) && a in d && b in d && IsManaged(a) && IsManaged(b) && Older(a, b)
    requires a.name !in Kept(d, protect) + stuck
    ensures var d' := Enforce(d, budget, protect, stuck); b !in d' ==> a !in d'
  {
    QueueOf(d);
    SweepIsOldestFirst(ByAge(Managed(d)), d, budget, Kept(d, protect) + stuck, a, b);
  }

  /** When anything was deleted, some deleted snapshot would not have fitted beside what is left. */
  lemma EnforceIsMinimal(d: Dir, budget: int, protect: Option<string>, stuck: set<string>) returns (last: Option<Entry>)
    requires Distinct(d)
    ensures var d' := Enforce(d, budget, protect, stuck);
            match last
            case None => d' == d
            case Some(e) => e in d && IsManaged(e) && e !in d' && ManagedBytes(d') + e.size > budget
  {
    QueueOf(d);
    last := SweepIsMinimal(ByAge(Managed(d)), d, budget, Kept(d, protect) + stuck);
  }

  // ---- the per-reason window ----

  lemma {:induction false} UnlinkAllLaw(queue: Dir, d: Dir, stuck: set<string>)
    requires Distinct(d) && Queued(queue, d)
    ensures var d' := UnlinkAll(queue, d, stuck);
            Distinct(d') && forall e :: e in d' <==> e in d && (e !in queue || e.name in stuck)
  {
    if queue != [] {
      QueuedRest(queue, d);
      UnlinkLaw(d, queue[0]);
      UnlinkAllLaw(queue[1..], if queue[0].name in stuck then d else Unlink(d, queue[0].name), stuck);
    }
  }

  lemma {:induction false} PrefixDistinct(s: Dir, n: nat)
    requires Distinct(s) && n <= |s|
    ensures Distinct(s[..n])
  {
    if n > 0 {
      PrefixDistinct(s[1..], n - 1);
      assert s[..n] == [s[0]] + s[1..][..n - 1];
      DistinctCons(s[0], s[1..][..n - 1]);
    }
  }

  lemma ExcessIsQueued(d: Dir, reason: string, retain: nat)
    requires Distinct(d)
    ensures Queued(Excess(d, reason, retain), d)
    ensures forall e :: e in Excess(d, reason, retain) ==> HasReason(e, reason)
  {
    ReasonDistinct(d, reason);
    ReasonMembers(d, reason);
    var queue := ByAge(WithReason(d, reason));
    ByAgeMembers(WithReason(d, reason));
    ByAgeSorts(WithReason(d, reason));
    PrefixDistinct(queue, if |queue| <= retain then 0 else |queue| - retain);
    assert forall e :: e in Excess(d, reason, retain) ==> e in queue;
  }

  /** Pruning one reason deletes exactly its excess files that can be deleted; nothing of another reason goes. */
  lemma PruneTouchesOneReason(d: Dir, reason: string, retain: nat, stuck: set<string>)
    requires Distinct(d)
    ensures var d' := Prune(d, reason, retain, stuck);
            && Distinct(d')
            && (forall e :: e in d' <==> e in d && (e !in Excess(d, reason, retain) || e.name in stuck))
            && (forall e :: e in d && !HasReason(e, reason) ==> e in d')
  {
    ExcessIsQueued(d, reason, retain);
    UnlinkAllLaw(Excess(d, reason, retain), d, stuck);
  }

  lemma {:induction false} SuffixDistinct(s: Dir, n: nat)
    requires Distinct(s) && n <= |s|
    ensures Distinct(s[n..])
  {
    if n > 0 {
      SuffixDistinct(s[1..], n - 1);
      assert s[n..] == s[1..][n - 1..];
    }
  }
}
