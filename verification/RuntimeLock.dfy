/**
 * Which API process owns the background loops (forven/api.py, lifespan, and
 * acquire/release_runtime_worker_lock). Any number of processes interleave the
 * steps of their main thread and of their deferred lock-retry thread; the file
 * lock itself is atomic and is freed when its owner exits.
 */
module RuntimeLock {
  import opened Basics

  /** The main thread of one process, from startup to exit. */
  datatype Main = Boot | BootHolding | BootFlagged | Serving | Stopping | Releasing | Down | Exited

  /** The retry thread: not spawned, waiting, woken by timeout, past acquire, past the stop check, flagged, ended. */
  datatype Retry = Unspawned | Waiting | Woken | Acquired | GivingBack | Cleared | Flagged | Ended

  datatype Proc = Proc(
    main: Main, retry: Retry,
    held: bool,       // _api_runtime_lock_held
    stop: bool,       // _runtime_lock_retry_stop
    threaded: bool,   // FORVEN_API_RUNTIME_THREAD_MODE
    running: bool)    // its background loops are running

  datatype State = State(owner: Option<nat>, procs: seq<Proc>)

  /** One atomic step. `fails` covers a missed lock and an exception while starting the loops. */
  datatype Step =
    | StartupSkip | StartupAcquire | StartupMiss | StartupFlag | StartupStart(fails: bool)
    | SetStop | CheckHeld | Release | Exit
    | WaitTimesOut | WaitSeesStop | RetryAcquire | RetryMiss | RetryCheckStop | RetryGiveBack
    | RetryFlag | RetryStart(fails: bool) | RetryDies

  predicate Free(s: State, p: nat) {
    s.owner == None || s.owner == Some(p)
  }

  datatype Effect = Keep | Take | Give

  /** The effect of a step on the process taking it and on the lock; a step that is not enabled changes nothing. */
  function Act(q: Proc, free: bool, step: Step): (Proc, Effect) {
    match step
    case StartupSkip => (if q.main.Boot? then q.(main := Serving) else q, Keep)
    case StartupAcquire => if q.main.Boot? && free then (q.(main := BootHolding), Take) else (q, Keep)
    case StartupMiss =>
      (if q.main.Boot? then q.(main := Serving, retry := if q.threaded then Waiting else Unspawned) else q, Keep)
    case StartupFlag => (if q.main.BootHolding? then q.(main := BootFlagged, held := true) else q, Keep)
    case StartupStart(fails) => (if q.main.BootFlagged? then q.(main := Serving, running := !fails) else q, Keep)
    case SetStop => (if q.main.Serving? then q.(main := Stopping, stop := true) else q, Keep)
    case CheckHeld =>
      // Task-mode loops are cancelled before the check; threads are only asked to stop.
      (if q.main.Stopping? then q.(main := if q.held then Releasing else Down, running := q.running && q.threaded)
       else q, Keep)
    case Release => if q.main.Releasing? then (q.(main := Down), Give) else (q, Keep)
    case Exit => if q.main.Exited? then (q, Keep) else (q.(main := Exited, retry := Ended, running := false), Give)
    case WaitTimesOut => (if q.retry.Waiting? && !q.stop then q.(retry := Woken) else q, Keep)
    case WaitSeesStop => (if q.retry.Waiting? && q.stop then q.(retry := Ended) else q, Keep)
    case RetryAcquire => if q.retry.Woken? && free then (q.(retry := Acquired), Take) else (q, Keep)
    case RetryMiss => (if q.retry.Woken? then q.(retry := Waiting) else q, Keep)
    case RetryCheckStop => (if q.retry.Acquired? then q.(retry := if q.stop then GivingBack else Cleared) else q, Keep)
    case RetryGiveBack => if q.retry.GivingBack? then (q.(retry := Ended), Give) else (q, Keep)
    case RetryFlag => (if q.retry.Cleared? then q.(retry := Flagged, held := true) else q, Keep)
    case RetryStart(fails) => (if q.retry.Flagged? then q.(retry := Ended, running := q.running || !fails) else q, Keep)
    case RetryDies => (if q.retry.Woken? then q.(retry := Ended) else q, Keep)
  }

  function Owner(owner: Option<nat>, p: nat, e: Effect): Option<nat> {
    match e
    case Keep => owner
    case Take => Some(p)
    case Give => if owner == Some(p) then None else owner
  }

  function Next(s: State, p: nat, step: Step): State
    requires p < |s.procs|
  {
    var (q, e) := Act(s.procs[p], Free(s, p), step);
    State(Owner(s.owner, p, e), s.procs[p := q])
  }

  datatype Move = Move(p: nat, step: Step)

  /** A schedule; moves of processes that do not exist are ignored. */
  function Run(s: State, schedule: seq<Move>): State {
    if schedule == [] then s
    else
      var m := schedule[|schedule| - 1];
      var before := Run(s, schedule[..|schedule| - 1]);
      if m.p < |before.procs| then Next(before, m.p, m.step) else before
  }

  /** All processes about to start, nobody holding the lock. */
  predicate Initial(s: State) {
    s.owner == None && forall i :: 0 <= i < |s.procs| ==>
      var q := s.procs[i];
      q.main.Boot? && q.retry.Unspawned? && !q.held && !q.stop && !q.running
  }

  /** What a process is entitled to, given whether it owns the lock. */
  predicate Sane(q: Proc, owns: bool) {
    && (q.stop <==> q.main in {Stopping, Releasing, Down} || (q.main.Exited? && q.stop))
    && (q.main.Boot? ==> q.retry.Unspawned? && !q.held && !q.running && !owns)
    && (q.main in {BootHolding, BootFlagged} ==> owns && q.retry.Unspawned? && !q.running)
    && (q.main.BootHolding? ==> !q.held)
    && (q.main.BootFlagged? ==> q.held)
    && (q.main.Exited? ==> !q.running && !owns && q.retry.Ended?)
    && (q.retry in {Waiting, Woken} ==> !q.held && !q.running && !owns)
    && (q.retry in {Acquired, GivingBack, Cleared} ==> owns && !q.held && !q.running)
    && (q.retry.GivingBack? ==> q.stop)
    && (q.retry.Flagged? ==> q.held && !q.running)
    && (q.retry !in {Unspawned, Ended} ==> q.main in {Serving, Stopping, Releasing, Down})
    && (q.main.Releasing? ==> q.held)
    && (q.held && !q.stop && !q.main.Exited? ==> owns)
    && (q.running && !q.stop ==> owns && q.held)
    && (q.running && !q.threaded ==> owns && q.main !in {Releasing, Down})
    && (q.running ==> q.retry in {Unspawned, Ended})
    && (q.retry !in {Unspawned, Ended} ==> q.threaded)
    && (owns && q.retry.Unspawned? ==> q.main in {BootHolding, BootFlagged, Serving, Stopping, Releasing})
    && (owns && q.retry.Unspawned? && q.main in {Serving, Stopping} ==> q.held)
    && (owns && q.retry.Ended? ==> q.held)
  }

  predicate Inv(s: State) {
    forall i :: 0 <= i < |s.procs| ==> Sane(s.procs[i], s.owner == Some(i))
  }

  lemma ActKeepsSane(q: Proc, owns: bool, free: bool, step: Step)
    requires Sane(q, owns)
    ensures var (q', e) := Act(q, free, step);
            Sane(q', if e.Keep? then owns else e.Take?)
  {
  }

  lemma StepKeepsOne(s: State, p: nat, step: Step)
    requires p < |s.procs| && Inv(s)
    ensures var s' := Next(s, p, step);
            |s'.procs| == |s.procs| && Sane(s'.procs[p], s'.owner == Some(p))
  {
    ActKeepsSane(s.procs[p], s.owner == Some(p), Free(s, p), step);
  }

  /** A step of one process neither touches another nor takes the lock from it. */
  lemma StepSparesOthers(s: State, p: nat, step: Step, i: nat)
    requires p < |s.procs| && i < |s.procs| && i != p
    ensures var s' := Next(s, p, step); s'.procs[i] == s.procs[i] && (s'.owner == Some(i) <==> s.owner == Some(i))
  {
  }

  lemma {:induction false} RunKeepsInv(s: State, schedule: seq<Move>)
    requires Inv(s)
    ensures Inv(Run(s, schedule)) && |Run(s, schedule).procs| == |s.procs|
  {
    if schedule != [] {
      var m := schedule[|schedule| - 1];
      var before := Run(s, schedule[..|schedule| - 1]);
      RunKeepsInv(s, schedule[..|schedule| - 1]);
      if m.p < |before.procs| {
        var after := Next(before, m.p, m.step);
        StepKeepsOne(before, m.p, m.step);
        forall i | 0 <= i < |after.procs| ensures Sane(after.procs[i], after.owner == Some(i)) {
          if i != m.p { StepSparesOthers(before, m.p, m.step, i); }
        }
      }
    }
  }

  lemma InitialIsSane(s: State)
    requires Initial(s)
    ensures Inv(s)
  {
  }

  /** Over all interleavings: loops run in a process that has not been told to stop only under its lock. */
  lemma RunningHoldsTheLock(s: State, schedule: seq<Move>, p: nat)
    requires Initial(s) && p < |s.procs|
    ensures var s' := Run(s, schedule);
            |s'.procs| == |s.procs| && (s'.procs[p].running && !s'.procs[p].stop ==> s'.owner == Some(p))
  {
    InitialIsSane(s);
    RunKeepsInv(s, schedule);
    assert Sane(Run(s, schedule).procs[p], Run(s, schedule).owner == Some(p));
  }

  predicate Active(s: State, p: nat) {
    p < |s.procs| && s.procs[p].running && !s.procs[p].stop
  }

  lemma AtMostOneActive(s: State, schedule: seq<Move>, p: nat, q: nat)
    requires Initial(s) && Active(Run(s, schedule), p) && Active(Run(s, schedule), q)
    ensures p == q
  {
    InitialIsSane(s);
    RunKeepsInv(s, schedule);
    RunningHoldsTheLock(s, schedule, p);
    RunningHoldsTheLock(s, schedule, q);
  }

  // ---- the retry that acquires too late ----

  /** Acquired after stop and on its way to give the lock back, or already done so. */
  predicate GivesBack(s: State, p: nat) {
    p < |s.procs| &&
    var q := s.procs[p];
    q.stop && !q.held && !q.running
    && (q.retry in {Acquired, GivingBack} || (q.retry.Ended? && s.owner != Some(p)))
  }

  lemma GivesBackStep(s: State, p: nat, m: Move)
    requires Inv(s) && GivesBack(s, p) && m.p < |s.procs|
    ensures var s' := Next(s, m.p, m.step);
            && GivesBack(s', p)
            && (m == Move(p, RetryCheckStop) || !s.procs[p].retry.Acquired? ==> !s'.procs[p].retry.Acquired?)
  {
    if m.p == p {
      assert Sane(s.procs[p], s.owner == Some(p));
    } else {
      StepSparesOthers(s, m.p, m.step, p);
    }
  }

  /**
   * From any reachable state in which the retry thread holds the lock after stop was
   * set, under every later schedule it starts nothing and, once it has looked at the
   * stop event, it is giving the lock back or has done so.
   */
  lemma {:induction false} LateAcquirerGivesBack(s: State, schedule: seq<Move>, p: nat)
    requires Inv(s) && p < |s.procs| && s.procs[p].retry.Acquired? && s.procs[p].stop
    ensures var s' := Run(s, schedule);
            && |s'.procs| == |s.procs| && GivesBack(s', p)
            && (Move(p, RetryCheckStop) in schedule ==> !s'.procs[p].retry.Acquired?)
  {
    if schedule == [] {
      assert Sane(s.procs[p], s.owner == Some(p));
    } else {
      var n := |schedule| - 1;
      RunKeepsInv(s, schedule[..n]);
      LateAcquirerGivesBack(s, schedule[..n], p);
      assert schedule == schedule[..n] + [schedule[n]];
      var before := Run(s, schedule[..n]);
      if schedule[n].p < |before.procs| {
        GivesBackStep(before, p, schedule[n]);
      }
    }
  }

  lemma GiveBackFreesTheLock(s: State, p: nat)
    requires Inv(s) && p < |s.procs| && s.procs[p].retry.GivingBack?
    ensures Next(s, p, RetryGiveBack).owner == None && Next(s, p, RetryGiveBack).procs[p].retry.Ended?
  {
    assert Sane(s.procs[p], s.owner == Some(p));
  }

  // ---- after a shutdown ----

  /**
   * A process that took the lock at startup has always freed it by the end of its
   * shutdown; only a lock taken by the retry thread can outlive the shutdown.
   */
  lemma StartupOwnerFreesTheLock(s: State, schedule: seq<Move>, p: nat)
    requires Initial(s) && p < |s.procs|
    ensures var s' := Run(s, schedule);
            && |s'.procs| == |s.procs|
            && (s'.procs[p].main.Down? && s'.procs[p].retry.Unspawned? ==> s'.owner != Some(p))
  {
    InitialIsSane(s);
    RunKeepsInv(s, schedule);
    assert Sane(Run(s, schedule).procs[p], Run(s, schedule).owner == Some(p));
  }

  ghost predicate Reaches(s: State, s': State) {
    exists schedule :: Run(s, schedule) == s'
  }

  lemma ReachesNext(s: State, now: State, p: nat, step: Step)
    requires Reaches(s, now) && p < |now.procs|
    ensures Reaches(s, Next(now, p, step))
  {
    var schedule :| Run(s, schedule) == now;
    assert (schedule + [Move(p, step)])[..|schedule|] == schedule;
    assert Run(s, schedule + [Move(p, step)]) == Next(now, p, step);
  }

  /** One step with its outcome spelled out. */
  lemma Goes(s: State, now: State, p: nat, step: Step, q: Proc, e: Effect) returns (after: State)
    requires Reaches(s, now) && p < |now.procs| && Act(now.procs[p], Free(now, p), step) == (q, e)
    ensures after == State(Owner(now.owner, p, e), now.procs[p := q]) && Reaches(s, after)
  {
    after := Next(now, p, step);
    ReachesNext(s, now, p, step);
  }

  const IDLE: Proc := Proc(Boot, Unspawned, false, false, true, false)
  const SERVING: Proc := Proc(Serving, Unspawned, true, false, true, true)

  lemma CanStart(s: State, now: State, p: nat) returns (after: State)
    requires Reaches(s, now) && p < |now.procs| && now.procs[p] == IDLE && now.owner == None
    ensures after == State(Some(p), now.procs[p := SERVING]) && Reaches(s, after)
  {
    after := Goes(s, now, p, StartupAcquire, IDLE.(main := BootHolding), Take);
    after := Goes(s, after, p, StartupFlag, IDLE.(main := BootFlagged, held := true), Keep);
    after := Goes(s, after, p, StartupStart(false), SERVING, Keep);
  }

  lemma CanStop(s: State, now: State, p: nat) returns (after: State)
    requires Reaches(s, now) && p < |now.procs| && now.procs[p] == SERVING && now.owner == Some(p)
    ensures after == State(None, now.procs[p := SERVING.(main := Down, stop := true)]) && Reaches(s, after)
  {
    after := Goes(s, now, p, SetStop, SERVING.(main := Stopping, stop := true), Keep);
    after := Goes(s, after, p, CheckHeld, SERVING.(main := Releasing, stop := true), Keep);
    after := Goes(s, after, p, Release, SERVING.(main := Down, stop := true), Give);
  }

  lemma ReachesItself(s: State)
    ensures Reaches(s, s)
  {
    assert Run(s, []) == s;
  }

  /**
   * The lock does not exclude a process that was told to stop: in thread mode its
   * loops go on until exit while the next owner has started its own.
   */
  lemma StoppedLoopsOverlapTheNextOwner() returns (s: State)
    ensures Initial(State(None, [IDLE, IDLE])) && Reaches(State(None, [IDLE, IDLE]), s)
    ensures |s.procs| == 2 && s.procs[0].running && s.procs[1].running && s.owner == Some(1)
  {
    var s0 := State(None, [IDLE, IDLE]);
    ReachesItself(s0);
    s := CanStart(s0, s0, 0);
    s := CanStop(s0, s, 0);
    s := CanStart(s0, s, 1);
  }

  /** A serving process that does not hold the lock, its retry thread at `r`. */
  function Waiter(r: Retry, threaded: bool): Proc {
    Proc(Serving, r, false, false, threaded, false)
  }

  lemma WaiterCanPassTheCheck(s: State, now: State, p: nat, threaded: bool) returns (after: State)
    requires Reaches(s, now) && p < |now.procs| && now.procs[p] == Waiter(Waiting, threaded) && now.owner == None
    ensures after == State(Some(p), now.procs[p := Waiter(Cleared, threaded)]) && Reaches(s, after)
  {
    after := Goes(s, now, p, WaitTimesOut, Waiter(Woken, threaded), Keep);
    after := Goes(s, after, p, RetryAcquire, Waiter(Acquired, threaded), Take);
    after := Goes(s, after, p, RetryCheckStop, Waiter(Cleared, threaded), Keep);
  }

  /**
   * A shutdown that looks at the flag between the retry thread's stop check and its
   * setting the flag ends without releasing: the loops then start in a stopped process
   * and the lock stays taken until exit.
   */
  lemma ShutdownCanMissTheRetry() returns (s: State)
    ensures Initial(State(None, [IDLE])) && Reaches(State(None, [IDLE]), s)
    ensures |s.procs| == 1 && s.procs[0] == Proc(Down, Ended, true, true, true, true) && s.owner == Some(0)
  {
    var s0 := State(None, [IDLE]);
    ReachesItself(s0);
    s := Goes(s0, s0, 0, StartupMiss, Waiter(Waiting, true), Keep);
    s := WaiterCanPassTheCheck(s0, s, 0, true);
    s := CheckMissesTheFlag(s0, s, 0);
  }

  lemma CheckMissesTheFlag(s: State, now: State, p: nat) returns (after: State)
    requires Reaches(s, now) && p < |now.procs| && now.procs[p] == Waiter(Cleared, true) && now.owner == Some(p)
    ensures after == State(Some(p), now.procs[p := Proc(Down, Ended, true, true, true, true)]) && Reaches(s, after)
  {
    after := Goes(s, now, p, SetStop, Proc(Stopping, Cleared, false, true, true, false), Keep);
    after := Goes(s, after, p, CheckHeld, Proc(Down, Cleared, false, true, true, false), Keep);
    after := Goes(s, after, p, RetryFlag, Proc(Down, Flagged, true, true, true, false), Keep);
    after := Goes(s, after, p, RetryStart(false), Proc(Down, Ended, true, true, true, true), Keep);
  }

  /** Over all interleavings loops run without the lock only in a thread-mode process that was told to stop. */
  lemma UnownedLoopsAreStoppedThreads(s: State, schedule: seq<Move>, p: nat)
    requires Initial(s) && p < |s.procs|
    ensures var s' := Run(s, schedule);
            && |s'.procs| == |s.procs|
            && (s'.procs[p].running && s'.owner != Some(p) ==> s'.procs[p].threaded && s'.procs[p].stop)
  {
    InitialIsSane(s);
    RunKeepsInv(s, schedule);
    assert Sane(Run(s, schedule).procs[p], Run(s, schedule).owner == Some(p));
  }

  lemma {:induction false} RunKeepsMode(s: State, schedule: seq<Move>, p: nat)
    requires p < |s.procs|
    ensures |Run(s, schedule).procs| == |s.procs| && Run(s, schedule).procs[p].threaded == s.procs[p].threaded
  {
    if schedule != [] {
      var n := |schedule| - 1;
      var m := schedule[n];
      RunKeepsMode(s, schedule[..n], p);
      var before := Run(s, schedule[..n]);
      if m.p < |before.procs| { ActKeepsMode(before.procs[m.p], Free(before, m.p), m.step); }
    }
  }

  lemma ActKeepsMode(q: Proc, free: bool, step: Step)
    ensures Act(q, free, step).0.threaded == q.threaded
  {
  }

  predicate RunsBesideOwner(s: State, p: nat, q: nat) {
    p < |s.procs| && q < |s.procs| && s.procs[p].running && s.procs[q].running && s.owner == Some(q)
  }

  ghost predicate CanOverlap(s: State, p: nat, q: nat) {
    exists s' :: Reaches(s, s') && RunsBesideOwner(s', p, q)
  }

  /** An active process stops in good order and its loops go on. */
  lemma ThreadsOutliveTheLock(s: State, p: nat) returns (after: State)
    requires Inv(s) && Active(s, p) && s.procs[p].threaded
    ensures Reaches(s, after) && after.owner == None
    ensures after.procs == s.procs[p := s.procs[p].(main := Down, stop := true)]
  {
    var r := s.procs[p].retry;
    assert Sane(s.procs[p], s.owner == Some(p)) && s.procs[p] == Proc(Serving, r, true, false, true, true);
    ReachesItself(s);
    after := ThreadCanStop(s, p, r);
  }

  lemma ThreadCanStop(s: State, p: nat, r: Retry) returns (after: State)
    requires p < |s.procs| && s.procs[p] == Proc(Serving, r, true, false, true, true)
    requires s.owner == Some(p) && Reaches(s, s)
    ensures Reaches(s, after) && after == State(None, s.procs[p := Proc(Down, r, true, true, true, true)])
  {
    after := Goes(s, s, p, SetStop, Proc(Stopping, r, true, true, true, true), Keep);
    after := Goes(s, after, p, CheckHeld, Proc(Releasing, r, true, true, true, true), Keep);
    after := Goes(s, after, p, Release, Proc(Down, r, true, true, true, true), Give);
  }

  lemma BootingCanStart(s: State, now: State, p: nat) returns (after: State)
    requires Reaches(s, now) && p < |now.procs| && now.owner == None
    requires var q := now.procs[p]; q.main.Boot? && q.retry.Unspawned? && !q.held && !q.stop && !q.running
    ensures after == State(Some(p), now.procs[p := SERVING.(threaded := now.procs[p].threaded)]) && Reaches(s, after)
  {
    var q := now.procs[p];
    after := Goes(s, now, p, StartupAcquire, q.(main := BootHolding), Take);
    after := Goes(s, after, p, StartupFlag, q.(main := BootFlagged, held := true), Keep);
    after := Goes(s, after, p, StartupStart(false), SERVING.(threaded := q.threaded), Keep);
  }

  /**
   * The loops of an active process can still run beside those of another process that
   * is about to start and will own the lock if and only if it runs them as threads.
   */
  lemma OverlapIffThreaded(s: State, p: nat, q: nat)
    requires Inv(s) && Active(s, p) && q < |s.procs| && q != p && s.procs[q].main.Boot?
    ensures CanOverlap(s, p, q) <==> s.procs[p].threaded
  {
    if CanOverlap(s, p, q) {
      var s' :| Reaches(s, s') && RunsBesideOwner(s', p, q);
      var schedule :| Run(s, schedule) == s';
      RunKeepsInv(s, schedule);
      RunKeepsMode(s, schedule, p);
      assert Sane(s'.procs[p], false);
    }
    if s.procs[p].threaded {
      assert Sane(s.procs[q], s.owner == Some(q));
      var freed := ThreadsOutliveTheLock(s, p);
      var after := BootingCanStart(s, freed, q);
      assert RunsBesideOwner(after, p, q);
    }
  }

  // ---- when exactly a shutdown keeps the lock ----

  /** Past its shutdown, still owning the lock, with nothing left that would release it. */
  predicate Stranded(s: State, p: nat) {
    p < |s.procs| && s.owner == Some(p) && s.procs[p].main.Down? && s.procs[p].retry in {Cleared, Flagged, Ended}
  }

  lemma ActStaysStranded(q: Proc, free: bool, step: Step)
    requires q.main.Down? && q.retry in {Cleared, Flagged, Ended} && !step.Exit?
    ensures var (q', e) := Act(q, free, step);
            e.Keep? && q'.main.Down? && q'.retry in {Cleared, Flagged, Ended}
  {
  }

  lemma StaysStranded(s: State, p: nat, m: Move)
    requires Inv(s) && Stranded(s, p) && m != Move(p, Exit) && m.p < |s.procs|
    ensures Stranded(Next(s, m.p, m.step), p)
  {
    if m.p == p {
      ActStaysStranded(s.procs[p], Free(s, p), m.step);
    } else {
      StepSparesOthers(s, m.p, m.step, p);
    }
  }

  lemma {:induction false} StrandedUntilExit(s: State, schedule: seq<Move>, p: nat)
    requires Inv(s) && Stranded(s, p) && Move(p, Exit) !in schedule
    ensures Stranded(Run(s, schedule), p)
  {
    if schedule != [] {
      var n := |schedule| - 1;
      var m := schedule[n];
      assert m in schedule && forall x :: x in schedule[..n] ==> x in schedule;
      RunKeepsInv(s, schedule[..n]);
      StrandedUntilExit(s, schedule[..n], p);
      var before := Run(s, schedule[..n]);
      if m.p < |before.procs| { StaysStranded(before, p, m); }
    }
  }

  /** Some schedule of the process's own steps, short of exiting, frees the lock. */
  ghost predicate CanFree(s: State, p: nat) {
    exists schedule :: Move(p, Exit) !in schedule && Run(s, schedule).owner != Some(p)
  }

  lemma RunSnoc(s: State, schedule: seq<Move>, m: Move)
    requires m.p < |Run(s, schedule).procs|
    ensures Run(s, schedule + [m]) == Next(Run(s, schedule), m.p, m.step)
  {
    assert (schedule + [m])[..|schedule|] == schedule;
  }

  lemma OneStepFrees(s: State, p: nat, step: Step)
    requires p < |s.procs| && !step.Exit? && Next(s, p, step).owner != Some(p)
    ensures CanFree(s, p)
  {
    RunSnoc(s, [], Move(p, step));
    assert Run(s, [Move(p, step)]) == Next(s, p, step);
  }

  lemma TwoStepsFree(s: State, p: nat, first: Step, second: Step)
    requires p < |s.procs| && !first.Exit? && !second.Exit?
    requires Next(Next(s, p, first), p, second).owner != Some(p)
    ensures CanFree(s, p)
  {
    var schedule := [Move(p, first)];
    RunSnoc(s, [], Move(p, first));
    assert Run(s, schedule) == Next(s, p, first);
    RunSnoc(s, schedule, Move(p, second));
    assert Run(s, schedule + [Move(p, second)]).owner != Some(p);
  }

  /**
   * A shutdown that owns the lock keeps it, under every schedule, until the process
   * exits if and only if its check of the flag falls between the retry thread's stop
   * check and the setting of the flag.
   */
  lemma ShutdownKeepsTheLockIff(s: State, p: nat)
    requires Inv(s) && p < |s.procs| && s.procs[p].main.Stopping? && s.owner == Some(p)
    ensures !CanFree(Next(s, p, CheckHeld), p) <==> s.procs[p].retry.Cleared?
  {
    var s' := Next(s, p, CheckHeld);
    assert Sane(s.procs[p], true);
    if s.procs[p].retry.Cleared? {
      CheckKeepsInv(s, p);
      forall schedule | Move(p, Exit) !in schedule ensures Run(s', schedule).owner == Some(p) {
        StrandedUntilExit(s', schedule, p);
      }
    } else if s.procs[p].held {
      OneStepFrees(s', p, Release);
    } else if s.procs[p].retry.Acquired? {
      TwoStepsFree(s', p, RetryCheckStop, RetryGiveBack);
    } else {
      OneStepFrees(s', p, RetryGiveBack);
    }
  }

  lemma CheckKeepsInv(s: State, p: nat)
    requires Inv(s) && p < |s.procs|
    ensures Inv(Next(s, p, CheckHeld))
  {
    assert Run(s, [Move(p, CheckHeld)]) == Next(s, p, CheckHeld) by { RunSnoc(s, [], Move(p, CheckHeld)); }
    RunKeepsInv(s, [Move(p, CheckHeld)]);
  }

  /** What the retry is for: once the lock is free a serving process whose retry waits can take the loops over. */
  lemma FreedLockIsTakenOver(s: State, p: nat) returns (after: State)
    requires Inv(s) && p < |s.procs| && s.owner == None && s.procs[p].main.Serving? && s.procs[p].retry.Waiting?
    ensures Reaches(s, after) && Active(after, p) && after.owner == Some(p)
    ensures forall i :: 0 <= i < |s.procs| && i != p ==> i < |after.procs| && after.procs[i] == s.procs[i]
  {
    var threaded := s.procs[p].threaded;
    assert Sane(s.procs[p], false) && s.procs[p] == Waiter(Waiting, threaded);
    ReachesItself(s);
    after := WaiterCanPassTheCheck(s, s, p, threaded);
    after := WaiterCanStart(s, after, p, threaded);
  }

  lemma WaiterCanStart(s: State, now: State, p: nat, threaded: bool) returns (after: State)
    requires Reaches(s, now) && p < |now.procs| && now.procs[p] == Waiter(Cleared, threaded) && now.owner == Some(p)
    ensures after == State(Some(p), now.procs[p := Proc(Serving, Ended, true, false, threaded, true)]) &&
            Reaches(s, after)
  {
    after := Goes(s, now, p, RetryFlag, Proc(Serving, Flagged, true, false, threaded, false), Keep);
    after := Goes(s, after, p, RetryStart(false), Proc(Serving, Ended, true, false, threaded, true), Keep);
  }
}
