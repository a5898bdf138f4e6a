/**
 * Drop-zone sessions (forven/ai_dropzone_sessions.py): ids and times are stored and
 * compared as text. Every operation is a function of the rows; the class at the end
 * updates the table in place.
 */
module DropZone {
  import opened Basics
  import opened Text
  import opened IsoTime

  datatype Status = Active | Closed

  datatype Session = Session(
    id: string, status: Status, startedAt: string, lastActivity: Option<string>, endedAt: Option<string>, auto: bool)

  type Table = seq<Session>

  const PREFIX: string := "ADZ-"

  // ---- ids ----

  function Decimal(n: nat): string {
    if n < 10 then [Digit(n)] else Decimal(n / 10) + [Digit(n % 10)]
  }

  /** `f"ADZ-{n:04d}"`. */
  function Id(n: nat): string {
    PREFIX + (if n < 10000 then Pad(n, 4) else Decimal(n))
  }

  /** `ORDER BY id DESC LIMIT 1`. */
  function MaxId(ids: seq<string>): string
    requires ids != []
  {
    var last := ids[|ids| - 1];
    if |ids| == 1 then last
    else
      var m := MaxId(ids[..|ids| - 1]);
      if Less(m, last) then last else m
  }

  /** The number after the prefix, or 0 when it is none. */
  function NumberOf(id: string): nat {
    if PREFIX <= id && |id| > |PREFIX| && IsDigits(id[|PREFIX|..]) then Value(id[|PREFIX|..]) else 0
  }

  function NextNumber(ids: seq<string>): nat {
    if ids == [] then 1 else NumberOf(MaxId(ids)) + 1
  }

  function Ids(rows: Table): seq<string> {
    seq(|rows|, i requires 0 <= i < |rows| => rows[i].id)
  }

  // ---- operations ----

  /** `COALESCE(last_activity_at, started_at) < cutoff`, on active rows. */
  predicate Idle(s: Session, cutoff: string) {
    s.status == Active && Less(s.lastActivity.GetOr(s.startedAt), cutoff)
  }

  function SweepOne(s: Session, cutoff: string, now: string): Session {
    if Idle(s, cutoff) then s.(status := Closed, endedAt := Some(now), auto := true) else s
  }

  function Sweep(rows: Table, cutoff: string, now: string): Table {
    seq(|rows|, i requires 0 <= i < |rows| => SweepOne(rows[i], cutoff, now))
  }

  function Touch(rows: Table, sid: string, now: string): Table {
    seq(|rows|, i requires 0 <= i < |rows| =>
      if rows[i].id == sid then rows[i].(lastActivity := Some(now)) else rows[i])
  }

  function CloseOne(s: Session, now: string): Session {
    if s.status == Closed then s else s.(status := Closed, endedAt := Some(now))
  }

  function Close(rows: Table, sid: string, now: string): Table {
    seq(|rows|, i requires 0 <= i < |rows| => if rows[i].id == sid then CloseOne(rows[i], now) else rows[i])
  }

  /** None when the id is taken: the primary key refuses the row. */
  function Insert(rows: Table, now: string): Option<Table> {
    var id := Id(NextNumber(Ids(rows)));
    if id in Ids(rows) then None else Some(rows + [Session(id, Active, now, Some(now), None, false)])
  }

  function Created(rows: Table, cutoff: string, now: string): Table {
    var swept := Sweep(rows, cutoff, now);
    Insert(swept, now).GetOr(swept)
  }

  function Touched(rows: Table, sid: string, now: string): Table {
    if Strip(sid) == "" then rows else Touch(rows, Strip(sid), now)
  }

  function ClosedBy(rows: Table, sid: string, now: string): Table {
    if Strip(sid) == "" then rows else Close(rows, Strip(sid), now)
  }

  datatype Op =
    | Create(cutoff: Instant, now: Instant)        // sweeps first
    | List(cutoff: Instant, now: Instant)          // sweeps, then reads
    | TouchOp(sid: string, now: Instant)
    | CloseOp(sid: string, now: Instant)

  predicate ValidOp(op: Op) {
    Valid(op.now) && ((op.Create? || op.List?) ==> Valid(op.cutoff))
  }

  function Apply(rows: Table, op: Op): Table {
    match op
    case Create(cutoff, now) => Created(rows, Iso(cutoff), Iso(now))
    case List(cutoff, now) => Sweep(rows, Iso(cutoff), Iso(now))
    case TouchOp(sid, now) => Touched(rows, sid, Iso(now))
    case CloseOp(sid, now) => ClosedBy(rows, sid, Iso(now))
  }

  function Run(ops: seq<Op>): Table {
    if ops == [] then [] else Apply(Run(ops[..|ops| - 1]), ops[|ops| - 1])
  }

  // ---- consecutive ids, and where they end ----

  const CAPACITY: nat := 10000

  ghost predicate Consecutive(ids: seq<string>) {
    |ids| <= CAPACITY && forall i :: 0 <= i < |ids| ==> ids[i] == Id(i + 1)
  }

  lemma IdOrder(m: nat, n: nat)
    requires m < CAPACITY && n < CAPACITY
    ensures Less(Id(m), Id(n)) <==> m < n
    ensures Id(m) == Id(n) <==> m == n
    ensures NumberOf(Id(m)) == m
  {
    Powers();
    PadOrder(m, n, 4);
    LessByHead(PREFIX, Pad(m, 4), PREFIX, Pad(n, 4));
    LessIrreflexive(PREFIX);
    PadValue(m, 4);
    assert Id(m)[|PREFIX|..] == Pad(m, 4) && Id(n)[|PREFIX|..] == Pad(n, 4);
  }

  lemma FiveDigits()
    ensures Decimal(CAPACITY) == "10000"
  {
    assert Decimal(10) == "10" && Decimal(100) == "100";
    assert Decimal(1000) == Decimal(100) + "0";
  }

  lemma FourNines()
    ensures Pad(9999, 4) == "9999"
  {
    assert Pad(9, 1) == "9" && Pad(99, 2) == "99" && Pad(999, 3) == "999";
  }

  lemma IdLength(n: nat)
    requires n < CAPACITY
    ensures |Id(n)| == 8 && Id(n) != Id(CAPACITY)
  {
    FiveDigits();
  }

  /** Five digits start with '1' and sort before every larger four-digit id. */
  lemma OverflowOrder()
    ensures Less(Id(CAPACITY), Id(9999)) && Id(CAPACITY) == PREFIX + "10000"
    ensures forall n :: 0 <= n < CAPACITY ==> Id(n) != Id(CAPACITY)
  {
    FiveDigits();
    FourNines();
    LessByHead(PREFIX, "10000", PREFIX, "9999");
    forall n | 0 <= n < CAPACITY ensures Id(n) != Id(CAPACITY) { IdLength(n); }
  }

  /** One more id against the maximum of those before it. */
  lemma MaxSnoc(ids: seq<string>)
    requires |ids| > 1
    ensures var last, m := ids[|ids| - 1], MaxId(ids[..|ids| - 1]); MaxId(ids) == if Less(m, last) then last else m
  {
  }

  lemma ConsecutivePrefix(ids: seq<string>)
    requires Consecutive(ids) && |ids| > 1
    ensures Consecutive(ids[..|ids| - 1]) && ids[|ids| - 1] == Id(|ids|)
  {
  }

  lemma {:induction false} MaxOfConsecutive(ids: seq<string>)
    requires Consecutive(ids) && ids != []
    ensures MaxId(ids) == Id(if |ids| < CAPACITY then |ids| else CAPACITY - 1)
  {
    var n := |ids|;
    if n > 1 {
      ConsecutivePrefix(ids);
      MaxOfConsecutive(ids[..n - 1]);
      MaxSnoc(ids);
      LaterBeats(n);
    }
  }

  /** The `n`-th id is the new maximum exactly while it has four digits. */
  lemma LaterBeats(n: nat)
    requires 1 < n <= CAPACITY
    ensures Less(Id(n - 1), Id(n)) <==> n < CAPACITY
  {
    if n < CAPACITY { IdOrder(n - 1, n); } else { OverflowBeats(); }
  }

  lemma OverflowBeats()
    ensures !Less(Id(9999), Id(CAPACITY))
  {
    OverflowOrder();
    if Less(Id(9999), Id(CAPACITY)) {
      LessTransitive(Id(9999), Id(CAPACITY), Id(9999));
      LessIrreflexive(Id(9999));
    }
  }

  lemma NextOfConsecutive(ids: seq<string>)
    requires Consecutive(ids)
    ensures NextNumber(ids) == (if |ids| < CAPACITY then |ids| + 1 else CAPACITY)
  {
    if ids != [] {
      MaxOfConsecutive(ids);
      IdOrder(if |ids| < CAPACITY then |ids| else CAPACITY - 1, 0);
    }
  }

  lemma IdsDiffer(m: nat, n: nat)
    requires m < n <= CAPACITY
    ensures Id(m) != Id(n)
  {
    if n < CAPACITY { IdOrder(m, n); } else { IdLength(m); }
  }

  lemma ConsecutiveSnoc(ids: seq<string>)
    requires Consecutive(ids) && |ids| < CAPACITY
    ensures Consecutive(ids + [Id(|ids| + 1)])
  {
  }

  lemma NextIsFresh(ids: seq<string>)
    requires Consecutive(ids)
    ensures Id(NextNumber(ids)) in ids <==> |ids| == CAPACITY
  {
    var n := |ids|;
    NextOfConsecutive(ids);
    if n == CAPACITY {
      assert ids[n - 1] == Id(CAPACITY);
    } else {
      forall i | 0 <= i < n ensures ids[i] != Id(n + 1) { IdsDiffer(i + 1, n + 1); }
    }
  }

  lemma UpdatesKeepIds(rows: Table, cutoff: string, sid: string, now: string)
    ensures Ids(Sweep(rows, cutoff, now)) == Ids(rows)
    ensures Ids(Touched(rows, sid, now)) == Ids(rows) && Ids(ClosedBy(rows, sid, now)) == Ids(rows)
  {
  }

  /** A creation succeeds, with the next consecutive id, exactly while fewer than 10000 sessions exist. */
  lemma CreateSucceedsIff(rows: Table, now: string)
    requires Consecutive(Ids(rows))
    ensures Insert(rows, now).Some? <==> |rows| < CAPACITY
    ensures Insert(rows, now).Some? ==> Ids(Insert(rows, now).value) == Ids(rows) + [Id(|rows| + 1)]
  {
    NextOfConsecutive(Ids(rows));
    NextIsFresh(Ids(rows));
  }

  lemma CreatedKeepsConsecutive(rows: Table, cutoff: string, now: string)
    requires Consecutive(Ids(rows))
    ensures Consecutive(Ids(Created(rows, cutoff, now)))
    ensures |Created(rows, cutoff, now)| == |rows| + (if |rows| < CAPACITY then 1 else 0)
  {
    var swept := Sweep(rows, cutoff, now);
    UpdatesKeepIds(rows, cutoff, "", now);
    assert Ids(swept) == Ids(rows) && |swept| == |rows|;
    CreateSucceedsIff(swept, now);
    if |rows| < CAPACITY { ConsecutiveSnoc(Ids(rows)); }
  }

  lemma ApplyKeepsConsecutive(rows: Table, op: Op)
    requires Consecutive(Ids(rows))
    ensures Consecutive(Ids(Apply(rows, op)))
    ensures |Apply(rows, op)| == |rows| + (if op.Create? && |rows| < CAPACITY then 1 else 0)
  {
    match op
    case Create(cutoff, now) => CreatedKeepsConsecutive(rows, Iso(cutoff), Iso(now));
    case List(cutoff, now) => UpdatesKeepIds(rows, Iso(cutoff), "", Iso(now));
    case TouchOp(sid, now) => UpdatesKeepIds(rows, "", sid, Iso(now));
    case CloseOp(sid, now) => UpdatesKeepIds(rows, "", sid, Iso(now));
  }

  function Creations(ops: seq<Op>): nat {
    if ops == [] then 0 else Creations(ops[..|ops| - 1]) + (if ops[|ops| - 1].Create? then 1 else 0)
  }

  /**
   * Over every run the sessions are numbered consecutively from 1 in creation order: the
   * first 10000 creations all succeed and every later one is refused, for ever.
   */
  lemma {:induction false} RunsNumberConsecutively(ops: seq<Op>)
    ensures Consecutive(Ids(Run(ops))) && |Run(ops)| == Min(Creations(ops), CAPACITY)
  {
    if ops != [] {
      RunsNumberConsecutively(ops[..|ops| - 1]);
      ApplyKeepsConsecutive(Run(ops[..|ops| - 1]), ops[|ops| - 1]);
    }
  }

  lemma ConsecutiveIdsDiffer(ids: seq<string>, i: nat, j: nat)
    requires Consecutive(ids) && i < j < |ids|
    ensures ids[i] != ids[j]
  {
    IdsDiffer(i + 1, j + 1);
  }

  lemma IdsAreDistinct(ops: seq<Op>, i: nat, j: nat)
    requires i < j < |Run(ops)|
    ensures Run(ops)[i].id != Run(ops)[j].id
  {
    RunsNumberConsecutively(ops);
    ConsecutiveIdsDiffer(Ids(Run(ops)), i, j);
  }

  // ---- times ----

  /** The row's activity text is the ISO form of this instant. */
  ghost predicate ActiveAt(s: Session, t: Instant) {
    Valid(t) && s.lastActivity.GetOr(s.startedAt) == Iso(t)
  }

  ghost predicate Stamped(s: Session) {
    exists t :: ActiveAt(s, t)
  }

  /** The sweep closes a session exactly when it is active and its last activity lies before the cutoff in time. */
  lemma SweepClosesExactlyTheIdle(rows: Table, i: nat, t: Instant, cutoff: Instant, now: Instant)
    requires i < |rows| && ActiveAt(rows[i], t) && Valid(cutoff)
    ensures var after := Sweep(rows, Iso(cutoff), Iso(now))[i];
            (after != rows[i] <==> rows[i].status == Active && Before(t, cutoff))
            && (after != rows[i] ==>
                after.status == Closed && after.endedAt == Some(Iso(now)) && after.id == rows[i].id)
  {
    IsoOrderIsTimeOrder(t, cutoff);
  }

  lemma StampedNow(s: Session, now: Instant)
    requires Valid(now) && s.lastActivity == Some(Iso(now))
    ensures Stamped(s)
  {
    assert ActiveAt(s, now);
  }

  lemma StampedLike(s: Session, s': Session)
    requires Stamped(s) && s'.lastActivity == s.lastActivity && s'.startedAt == s.startedAt
    ensures Stamped(s')
  {
    var t :| ActiveAt(s, t);
    assert ActiveAt(s', t);
  }

  ghost predicate AllStamped(rows: Table) {
    forall i :: 0 <= i < |rows| ==> Stamped(rows[i])
  }

  /** What any operation does to the times of the rows: nothing, or activity now. */
  ghost predicate Restamped(rows: Table, rows': Table, now: string) {
    && |rows'| >= |rows|
    && (forall i :: 0 <= i < |rows| ==>
          || rows'[i].lastActivity == Some(now)
          || (rows'[i].lastActivity == rows[i].lastActivity && rows'[i].startedAt == rows[i].startedAt))
    && (forall i :: |rows| <= i < |rows'| ==> rows'[i].lastActivity == Some(now))
  }

  lemma SweepRestamps(rows: Table, cutoff: string, now: string)
    ensures Restamped(rows, Sweep(rows, cutoff, now), now)
  {
  }

  lemma CreatedRestamps(rows: Table, cutoff: string, now: string)
    ensures Restamped(rows, Created(rows, cutoff, now), now)
  {
    SweepRestamps(rows, cutoff, now);
  }

  lemma TouchRestamps(rows: Table, key: string, now: string)
    ensures Restamped(rows, Touch(rows, key, now), now)
  {
  }

  lemma CloseRestamps(rows: Table, key: string, now: string)
    ensures Restamped(rows, Close(rows, key, now), now)
  {
  }

  lemma TouchedRestamps(rows: Table, sid: string, now: string)
    ensures Restamped(rows, Touched(rows, sid, now), now)
  {
    TouchRestamps(rows, Strip(sid), now);
  }

  lemma ClosedByRestamps(rows: Table, sid: string, now: string)
    ensures Restamped(rows, ClosedBy(rows, sid, now), now)
  {
    CloseRestamps(rows, Strip(sid), now);
  }

  lemma RestampedAll(rows: Table, rows': Table, now: Instant)
    requires AllStamped(rows) && Valid(now) && Restamped(rows, rows', Iso(now))
    ensures AllStamped(rows')
  {
    forall i | 0 <= i < |rows'| ensures Stamped(rows'[i]) {
      if rows'[i].lastActivity == Some(Iso(now)) { StampedNow(rows'[i], now); } else { StampedLike(rows[i], rows'[i]); }
    }
  }

  lemma ApplyKeepsStamps(rows: Table, op: Op)
    requires ValidOp(op) && AllStamped(rows)
    ensures AllStamped(Apply(rows, op))
  {
    ApplyRestamps(rows, op);
    RestampedAll(rows, Apply(rows, op), op.now);
  }

  lemma ApplyRestamps(rows: Table, op: Op)
    ensures Restamped(rows, Apply(rows, op), Iso(op.now))
  {
    match op
    case Create(cutoff, now) => CreatedRestamps(rows, Iso(cutoff), Iso(now));
    case List(cutoff, now) => SweepRestamps(rows, Iso(cutoff), Iso(now));
    case TouchOp(sid, now) => TouchedRestamps(rows, sid, Iso(now));
    case CloseOp(sid, now) => ClosedByRestamps(rows, sid, Iso(now));
  }

  lemma {:induction false} RunsAreStamped(ops: seq<Op>)
    requires forall i :: 0 <= i < |ops| ==> ValidOp(ops[i])
    ensures AllStamped(Run(ops))
  {
    if ops != [] {
      RunsAreStamped(ops[..|ops| - 1]);
      ApplyKeepsStamps(Run(ops[..|ops| - 1]), ops[|ops| - 1]);
    }
  }

  // ---- closed is for ever ----

  /** A row keeps its identity, a closed row stays exactly as closed, and only closed rows have an end. */
  predicate Follows(s: Session, s': Session) {
    && s'.id == s.id && s'.startedAt == s.startedAt
    && (s.status == Closed ==> s'.status == Closed && s'.endedAt == s.endedAt && s'.auto == s.auto)
  }

  predicate EndsMatch(s: Session) {
    s.endedAt.Some? <==> s.status == Closed
  }

  ghost predicate AllFollow(rows: Table, rows': Table) {
    |rows| <= |rows'| && forall i :: 0 <= i < |rows| ==> Follows(rows[i], rows'[i])
  }

  ghost predicate AllEndsMatch(rows: Table) {
    forall i :: 0 <= i < |rows| ==> EndsMatch(rows[i])
  }

  ghost predicate Proper(rows: Table, rows': Table) {
    AllFollow(rows, rows') && (AllEndsMatch(rows) ==> AllEndsMatch(rows'))
  }

  lemma SweepIsProper(rows: Table, cutoff: string, now: string)
    ensures Proper(rows, Sweep(rows, cutoff, now))
  {
  }

  lemma CreatedIsProper(rows: Table, cutoff: string, now: string)
    ensures Proper(rows, Created(rows, cutoff, now))
  {
    SweepIsProper(rows, cutoff, now);
  }

  lemma TouchIsProper(rows: Table, key: string, now: string)
    ensures Proper(rows, Touch(rows, key, now))
  {
  }

  lemma CloseIsProper(rows: Table, key: string, now: string)
    ensures Proper(rows, Close(rows, key, now))
  {
  }

  lemma TouchedIsProper(rows: Table, sid: string, now: string)
    ensures Proper(rows, Touched(rows, sid, now))
  {
    TouchIsProper(rows, Strip(sid), now);
  }

  lemma ClosedByIsProper(rows: Table, sid: string, now: string)
    ensures Proper(rows, ClosedBy(rows, sid, now))
  {
    CloseIsProper(rows, Strip(sid), now);
  }

  lemma ApplyIsProper(rows: Table, op: Op)
    ensures Proper(rows, Apply(rows, op))
  {
    match op
    case Create(cutoff, now) => CreatedIsProper(rows, Iso(cutoff), Iso(now));
    case List(cutoff, now) => SweepIsProper(rows, Iso(cutoff), Iso(now));
    case TouchOp(sid, now) => TouchedIsProper(rows, sid, Iso(now));
    case CloseOp(sid, now) => ClosedByIsProper(rows, sid, Iso(now));
  }

  lemma FollowsTransitive(a: Table, b: Table, c: Table)
    requires AllFollow(a, b) && AllFollow(b, c)
    ensures AllFollow(a, c)
  {
    forall i | 0 <= i < |a| ensures Follows(a[i], c[i]) { assert Follows(a[i], b[i]) && Follows(b[i], c[i]); }
  }

  /** Over all runs closed is absorbing, `ended_at` is written once, and exactly the closed rows have one. */
  lemma {:induction false} ClosedIsForEver(ops: seq<Op>, more: seq<Op>)
    ensures AllFollow(Run(ops), Run(ops + more))
    ensures AllEndsMatch(Run(ops + more))
    decreases |ops| + |more|
  {
    if more != [] {
      var n := |more| - 1;
      assert (ops + more)[..|ops + more| - 1] == ops + more[..n] && (ops + more)[|ops + more| - 1] == more[n];
      ClosedIsForEver(ops, more[..n]);
      ApplyIsProper(Run(ops + more[..n]), more[n]);
      FollowsTransitive(Run(ops), Run(ops + more[..n]), Run(ops + more));
    } else {
      assert ops + more == ops;
      if ops != [] {
        assert ops[..|ops| - 1] + [] == ops[..|ops| - 1];
        ClosedIsForEver(ops[..|ops| - 1], []);
        ApplyIsProper(Run(ops[..|ops| - 1]), ops[|ops| - 1]);
      }
    }
  }

  /** A session touched at or after the cutoff survives the sweep. */
  lemma TouchedSurvives(rows: Table, i: nat, sid: string, t: Instant, cutoff: Instant, now: Instant)
    requires i < |rows| && rows[i].id == sid && rows[i].status == Active
    requires Valid(t) && Valid(cutoff) && !Before(t, cutoff)
    ensures Sweep(Touch(rows, sid, Iso(t)), Iso(cutoff), Iso(now))[i].status == Active
  {
    var touched := Touch(rows, sid, Iso(t));
    assert ActiveAt(touched[i], t);
    SweepClosesExactlyTheIdle(touched, i, t, cutoff, now);
  }

  lemma CloseAbsent(rows: Table, sid: string, now: string)
    ensures sid !in Ids(rows) ==> Close(rows, sid, now) == rows
  {
    assert forall i :: 0 <= i < |rows| ==> rows[i].id == Ids(rows)[i];
  }

  // ---- the table, updated in place ----

  function ClosedCount(rows: Table): nat {
    if rows == [] then 0 else (if rows[0].status == Closed then 1 else 0) + ClosedCount(rows[1..])
  }

  lemma {:induction false} ClosingOne(rows: Table, i: nat, s: Session)
    requires i < |rows| && rows[i].status == Active && s.status == Closed
    ensures ClosedCount(rows[i := s]) == ClosedCount(rows) + 1
  {
    if i > 0 {
      ClosingOne(rows[1..], i - 1, s);
      assert rows[i := s][1..] == rows[1..][i - 1 := s];
    } else {
      assert rows[i := s][1..] == rows[1..];
    }
  }

  class SessionTable {
    var rows: Table

    constructor ()
      ensures rows == []
    {
      rows := [];
    }

    /** Afterwards no session is idle, and the count is by how many the closed ones grew. */
    method CloseIdleSessions(cutoff: string, now: string) returns (closed: nat)
      modifies this
      ensures rows == Sweep(old(rows), cutoff, now)
      ensures forall i :: 0 <= i < |rows| ==> !Idle(rows[i], cutoff)
      ensures closed == ClosedCount(rows) - ClosedCount(old(rows))
    {
      closed := 0;
      for i := 0 to |rows|
        invariant |rows| == |old(rows)|
        invariant forall j :: 0 <= j < i ==> rows[j] == SweepOne(old(rows)[j], cutoff, now)
        invariant forall j :: i <= j < |rows| ==> rows[j] == old(rows)[j]
        invariant ClosedCount(rows) == ClosedCount(old(rows)) + closed
      {
        if Idle(rows[i], cutoff) {
          var ended := rows[i].(status := Closed, endedAt := Some(now), auto := true);
          ClosingOne(rows, i, ended);
          rows := rows[i := ended];
          closed := closed + 1;
        }
      }
    }

    /** None when the insert is refused; the sweep has taken effect either way. */
    method CreateSession(cutoff: string, now: string) returns (id: Option<string>)
      modifies this
      ensures rows == Created(old(rows), cutoff, now)
      ensures id.Some? <==> |rows| > |old(rows)|
      ensures id.Some? ==> rows[|old(rows)|].id == id.value
    {
      var _ := CloseIdleSessions(cutoff, now);
      var next := Id(NextNumber(Ids(rows)));
      if next in Ids(rows) {
        return None;
      }
      rows := rows + [Session(next, Active, now, Some(now), None, false)];
      return Some(next);
    }

    /** A touched session is not idle for any cutoff up to now; nothing but its activity changes. */
    method TouchSession(sid: string, now: string)
      modifies this
      ensures rows == Touched(old(rows), sid, now)
      ensures forall i, cutoff ::
                0 <= i < |rows| && Strip(sid) != "" && rows[i].id == Strip(sid) && !Less(now, cutoff) ==>
                !Idle(rows[i], cutoff)
      ensures |rows| == |old(rows)|
      ensures forall i :: 0 <= i < |rows| ==>
                && rows[i] == old(rows)[i].(lastActivity := rows[i].lastActivity)
                && (rows[i] != old(rows)[i] ==> rows[i].id == Strip(sid) && rows[i].lastActivity == Some(now))
    {
      if Strip(sid) != "" {
        rows := Touch(rows, Strip(sid), now);
      }
    }

    method CloseSession(sid: string, now: string) returns (found: bool)
      modifies this
      ensures rows == ClosedBy(old(rows), sid, now)
      ensures found <==> Strip(sid) != "" && Strip(sid) in Ids(old(rows))
    {
      var key := Strip(sid);
      if key == "" {
        return false;
      }
      if key !in Ids(rows) {
        CloseAbsent(rows, key, now);
        return false;
      }
      rows := Close(rows, key, now);
      return true;
    }
  }
}
