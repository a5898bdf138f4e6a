/**
 * Runs: any sequence of turns (on any threads, with any model, tools, round caps and
 * cost caps, actions on or off) and operator decisions, one after the other.
 */
module TurnRuns {
  import opened Basics
  import opened Transcript
  import opened TurnSpec
  import opened TurnSafety
  import MS = ModelStream

  datatype Sys = Sys(db: seq<Row>, ran: seq<ToolRun>)

  datatype Op =
    | Chat(w: World, thread: Thread, t: string, text: string, allow: bool, cap: real, rounds: nat)
    | Decide(output: string, thread: Thread, t: string, id: nat, approve: bool)

  function Apply(op: Op, sys: Sys): Sys {
    match op
    case Chat(w, thread, t, text, allow, cap, rounds) =>
      var s := RunTurn(w, thread, t, text, allow, cap, rounds, sys.db, sys.ran);
      Sys(s.db, s.ran)
    case Decide(output, thread, t, id, approve) =>
      var c := Confirm(output, thread, t, id, approve, sys.db, sys.ran);
      Sys(c.db, c.ran)
  }

  function Run(ops: seq<Op>): Sys {
    if ops == [] then Sys([], []) else Apply(ops[|ops| - 1], Run(ops[..|ops| - 1]))
  }

  lemma RunSnoc(ops: seq<Op>, op: Op)
    ensures Run(ops + [op]) == Apply(op, Run(ops))
  {
    assert (ops + [op])[..|ops|] == ops;
  }

  // ---- rows are only appended, other threads are left alone ----

  /** What one turn adds: rows of its own thread, and, with actions allowed, fresh pending actions and no gated runs. */
  ghost predicate Grew(allow: bool, t: string, before: Sys, after: Sys) {
    && before.db <= after.db && before.ran <= after.ran
    && (forall i :: |before.db| <= i < |after.db| ==>
          && after.db[i].thread == t
          && (after.db[i].body.Action? ==>
                allow && after.db[i].body.status == Pending && IsConfirm(after.db[i].body.call.name)))
    && (forall i :: |before.ran| <= i < |after.ran| ==>
          after.ran[i].approval == None && (allow ==> !IsConfirm(after.ran[i].name)))
  }

  lemma GrewTransitive(allow: bool, t: string, a: Sys, b: Sys, c: Sys)
    requires Grew(allow, t, a, b) && Grew(allow, t, b, c)
    ensures Grew(allow, t, a, c)
  {
    forall i | |a.db| <= i < |c.db| ensures c.db[i].thread == t
      && (c.db[i].body.Action? ==> allow && c.db[i].body.status == Pending && IsConfirm(c.db[i].body.call.name))
    {
      if i < |b.db| { assert b.db[i] == c.db[i]; }
    }
    forall i | |a.ran| <= i < |c.ran| ensures c.ran[i].approval == None && (allow ==> !IsConfirm(c.ran[i].name)) {
      if i < |b.ran| { assert b.ran[i] == c.ran[i]; }
    }
  }

  function At(s: Turn): Sys {
    Sys(s.db, s.ran)
  }

  lemma {:induction false} AnswerCallsGrew(w: World, t: string, allow: bool, calls: seq<Call>, s: Turn)
    ensures Grew(allow, t, At(s), At(AnswerCalls(w, t, allow, calls, s)))
    decreases |calls|
  {
    if calls != [] {
      var s' := AnswerCall(w, t, allow, calls[0], s);
      assert Grew(allow, t, At(s), At(s'));
      AnswerCallsGrew(w, t, allow, calls[1..], s');
      GrewTransitive(allow, t, At(s), At(s'), At(AnswerCalls(w, t, allow, calls[1..], s')));
    }
  }

  lemma SpokenGrew(allow: bool, t: string, f: MS.Item, content: string, s: Turn)
    requires f.Final?
    ensures Grew(allow, t, At(s), At(Spoken(t, f, content, s)))
  {
  }

  lemma HeardGrew(w: World, t: string, allow: bool, cap: real, items: seq<MS.Item>, s: Turn)
    ensures Grew(allow, t, At(s), At(Heard(w, t, allow, cap, items, s).s))
  {
    var s1 := s.(events := s.events + Tokens(items));
    if LastFinal(items).Some? && !Errored(LastFinal(items).value) {
      var f := LastFinal(items).value;
      var spoken := Spoken(t, f, Content(f, items), s1);
      SpokenGrew(allow, t, f, Content(f, items), s1);
      AnswerCallsGrew(w, t, allow, f.calls, spoken);
      GrewTransitive(allow, t, At(s), At(spoken), At(AnswerCalls(w, t, allow, f.calls, spoken)));
    }
  }

  lemma {:induction false} TurnFromGrew(w: World, t: string, allow: bool, cap: real, rounds: nat, r: nat, s: Turn)
    requires r <= rounds
    ensures Grew(allow, t, At(s), At(TurnFrom(w, t, allow, cap, rounds, r, s)))
    decreases rounds - r
  {
    if r == rounds {
      LandingGrew(w, t, allow, rounds, s);
    } else {
      var h := OneRound(w, t, allow, cap, rounds, r, s);
      RoundGrew(w, t, allow, cap, rounds, r, s);
      if h.Again? {
        TurnFromGrew(w, t, allow, cap, rounds, r + 1, h.s);
        GrewTransitive(allow, t, At(s), At(h.s), At(TurnFrom(w, t, allow, cap, rounds, r + 1, h.s)));
      }
    }
  }

  lemma RoundGrew(w: World, t: string, allow: bool, cap: real, rounds: nat, r: nat, s: Turn)
    ensures Grew(allow, t, At(s), At(Round(w, t, allow, cap, rounds, r, s).s))
  {
    if w.reply(r).Streams? {
      HeardGrew(w, t, allow, cap, MS.Stream(w.reply(r).script), Asked(Nudged(rounds, r, s)));
    }
  }

  lemma LandingGrew(w: World, t: string, allow: bool, rounds: nat, s: Turn)
    ensures Grew(allow, t, At(s), At(Landing(w, t, rounds, s)))
  {
  }

  lemma TurnGrew(w: World, thread: Thread, t: string, text: string, allow: bool, cap: real, rounds: nat, sys: Sys)
    ensures Grew(allow, t, sys, At(RunTurn(w, thread, t, text, allow, cap, rounds, sys.db, sys.ran)))
  {
    if thread.Live? && Cost(Of(sys.db, t)) < cap {
      OpenedGrew(allow, t, text, sys);
      OpenedTurnGrew(w, t, allow, cap, rounds, sys, Opened(t, text, sys.db, sys.ran));
    }
  }

  lemma OpenedGrew(allow: bool, t: string, text: string, sys: Sys)
    ensures Grew(allow, t, sys, At(Opened(t, text, sys.db, sys.ran)))
  {
  }

  lemma OpenedTurnGrew(w: World, t: string, allow: bool, cap: real, rounds: nat, sys: Sys, s0: Turn)
    requires Grew(allow, t, sys, At(s0))
    ensures Grew(allow, t, sys, At(TurnFrom(w, t, allow, cap, rounds, 0, s0)))
  {
    TurnFromGrew(w, t, allow, cap, rounds, 0, s0);
    GrewTransitive(allow, t, sys, At(s0), At(TurnFrom(w, t, allow, cap, rounds, 0, s0)));
  }

  lemma {:induction false} GrowthElsewhere(db: seq<Row>, db': seq<Row>, t: string, u: string)
    requires db <= db' && u != t && forall i :: |db| <= i < |db'| ==> db'[i].thread == t
    ensures Of(db', u) == Of(db, u)
    decreases |db'|
  {
    if |db'| > |db| {
      GrowthElsewhere(db, db'[..|db'| - 1], t, u);
    } else {
      assert db' == db;
    }
  }

  // ---- pairing over runs ----

  lemma MarkKeepsPairing(db: seq<Row>, id: nat, status: Status, cap: real, t: string)
    requires id < |db| && db[id].body.Action? && SettledOrCapped(db, t, cap)
    ensures SettledOrCapped(WithStatus(db, id, status), t, cap)
  {
    StatusOnly(db, id, status, t);
  }

  lemma NoteKeepsPairing(db: seq<Row>, u: string, note: string, cap: real, t: string)
    requires SettledOrCapped(db, t, cap)
    ensures SettledOrCapped(Appended(db, u, Assistant(note, []), None), t, cap)
  {
    AppendElsewhere(db, u, Assistant(note, []), None, t);
    if u == t { AppendOwed(db, t, Assistant(note, []), None, []); }
  }

  lemma DecideKeepsPairing(op: Op, cap: real, sys: Sys, t: string)
    requires op.Decide? && SettledOrCapped(sys.db, t, cap)
    ensures SettledOrCapped(Apply(op, sys).db, t, cap)
  {
    var db' := Apply(op, sys).db;
    if db' != sys.db {
      var status := db'[op.id].body.status;
      MarkKeepsPairing(sys.db, op.id, status, cap, t);
      var marked := WithStatus(sys.db, op.id, status);
      if db' != marked {
        NoteKeepsPairing(marked, op.t, db'[|marked|].body.text, cap, t);
      }
    }
  }

  /** No turn runs under a higher cost cap than an earlier one, and none under less than `cap`. */
  ghost predicate CapsFallTo(ops: seq<Op>, cap: real) {
    && (forall i, j :: 0 <= i <= j < |ops| && ops[i].Chat? && ops[j].Chat? ==> ops[j].cap <= ops[i].cap)
    && (forall i :: 0 <= i < |ops| && ops[i].Chat? ==> cap <= ops[i].cap)
  }

  lemma CapsFallBefore(ops: seq<Op>, cap: real)
    requires CapsFallTo(ops, cap) && ops != []
    ensures var n := |ops| - 1;
            CapsFallTo(ops[..n], cap) && (ops[n].Chat? ==> CapsFallTo(ops[..n], ops[n].cap) && cap <= ops[n].cap)
  {
  }

  lemma TurnKeepsOther(op: Op, sys: Sys, cap: real, t: string)
    requires op.Chat? && op.t != t && SettledOrCapped(sys.db, t, cap)
    ensures SettledOrCapped(Apply(op, sys).db, t, cap)
  {
    TurnGrew(op.w, op.thread, op.t, op.text, op.allow, op.cap, op.rounds, sys);
    GrowthElsewhere(sys.db, Apply(op, sys).db, op.t, t);
  }

  /**
   * In every store reached while no cost cap is raised, every thread is settled or at its
   * cap, whichever turns had actions on. With TurnKeepsPairing: every request of the next
   * turn has all its calls answered.
   */
  lemma {:induction false} RunsKeepPairing(ops: seq<Op>, cap: real, t: string)
    requires CapsFallTo(ops, cap)
    ensures SettledOrCapped(Run(ops).db, t, cap)
  {
    if ops != [] {
      var n := |ops| - 1;
      var op, sys := ops[n], Run(ops[..n]);
      CapsFallBefore(ops, cap);
      RunsKeepPairing(ops[..n], cap, t);
      if op.Decide? {
        DecideKeepsPairing(op, cap, sys, t);
      } else if op.t != t {
        TurnKeepsOther(op, sys, cap, t);
      } else {
        RunsKeepPairing(ops[..n], op.cap, t);
        var _ := TurnKeepsPairing(op.w, op.thread, t, op.text, op.allow, op.cap, op.rounds, sys.db, sys.ran);
      }
    }
  }

  lemma EveryRequestIsAnswered(ops: seq<Op>, next: Op)
    requires next.Chat? && CapsFallTo(ops, next.cap)
    ensures var sys := Run(ops);
            var s := RunTurn(next.w, next.thread, next.t, next.text, next.allow, next.cap, next.rounds,
                             sys.db, sys.ran);
            forall i :: 0 <= i < |s.sent| ==> AllAnswered(s.sent[i])
  {
    RunsKeepPairing(ops, next.cap, next.t);
    var sys := Run(ops);
    var _ := TurnKeepsPairing(next.w, next.thread, next.t, next.text, next.allow, next.cap, next.rounds,
                              sys.db, sys.ran);
  }

  // ---- confirm gating ----

  predicate IsRun(db: seq<Row>, r: ToolRun) {
    r.approval.Some? ==>
      var a := r.approval.value;
      && a < |db| && db[a].body.Action? && db[a].body.status in {Executed, Failed}
      && db[a].body.call.name == r.name && db[a].body.call.input == r.input
  }

  /** Every approval names a finished action with the call that ran, and no action runs twice. */
  ghost predicate Approved(sys: Sys) {
    && (forall i :: 0 <= i < |sys.ran| ==> IsRun(sys.db, sys.ran[i]))
    && (forall i, j :: 0 <= i < j < |sys.ran| && sys.ran[i].approval.Some? ==>
          sys.ran[i].approval != sys.ran[j].approval)
  }

  /** How one action may change: it stays, or leaves `pending` for good. */
  predicate Progressed(before: Body, after: Body) {
    before == after
    || (before.Action? && before.status == Pending && after.Action? && after == before.(status := after.status))
  }

  /** Rows keep their place, thread, number and cost; only the status of a pending action can change. */
  ghost predicate AllProgressed(db: seq<Row>, db': seq<Row>) {
    && |db| <= |db'|
    && forall i :: 0 <= i < |db| ==> Progressed(db[i].body, db'[i].body) && db'[i] == db[i].(body := db'[i].body)
  }

  lemma TurnProgresses(op: Op, sys: Sys)
    requires op.Chat?
    ensures AllProgressed(sys.db, Apply(op, sys).db) && sys.ran <= Apply(op, sys).ran
  {
    TurnGrew(op.w, op.thread, op.t, op.text, op.allow, op.cap, op.rounds, sys);
  }

  lemma TurnKeepsApproved(op: Op, sys: Sys)
    requires op.Chat? && Approved(sys)
    ensures Approved(Apply(op, sys))
  {
    TurnGrew(op.w, op.thread, op.t, op.text, op.allow, op.cap, op.rounds, sys);
    GrewKeepsApproved(op.allow, op.t, sys, Apply(op, sys));
  }

  lemma GrewKeepsApproved(allow: bool, t: string, sys: Sys, sys': Sys)
    requires Grew(allow, t, sys, sys') && Approved(sys)
    ensures Approved(sys')
  {
    forall i | 0 <= i < |sys'.ran| ensures IsRun(sys'.db, sys'.ran[i]) {
      if i < |sys.ran| { assert sys'.ran[i] == sys.ran[i] && IsRun(sys.db, sys.ran[i]); }
    }
    forall i, j | 0 <= i < j < |sys'.ran| && sys'.ran[i].approval.Some?
      ensures sys'.ran[i].approval != sys'.ran[j].approval
    {
      assert i < |sys.ran| && sys'.ran[i] == sys.ran[i];
      if j < |sys.ran| { assert sys'.ran[j] == sys.ran[j]; }
    }
  }

  /** All that a decision can do: nothing, or move its pending action, running its tool if approved. */
  ghost predicate Decided(op: Op, sys: Sys, sys': Sys)
    requires op.Decide?
  {
    sys' == sys
    || (&& op.id < |sys.db| && sys.db[op.id].body.Action? && sys.db[op.id].body.status == Pending
        && |sys.db| <= |sys'.db|
        && (forall i :: 0 <= i < |sys.db| && i != op.id ==> sys'.db[i] == sys.db[i])
        && (forall i :: |sys.db| <= i < |sys'.db| ==> !sys'.db[i].body.Action?)
        && DecidedAction(op, sys.db[op.id], sys'.db[op.id], sys.ran, sys'.ran))
  }

  predicate DecidedAction(op: Op, row: Row, row': Row, ran: seq<ToolRun>, ran': seq<ToolRun>)
    requires op.Decide? && row.body.Action?
  {
    var call := row.body.call;
    && row' == row.(body := row'.body) && row'.body.Action? && row'.body == row.body.(status := row'.body.status)
    && if op.approve && IsConfirm(call.name)
       then row'.body.status in {Executed, Failed} && ran' == ran + [ToolRun(call.name, call.input, Some(op.id))]
       else ran' == ran && row'.body.status == (if op.approve then Failed else Rejected)
  }

  lemma DecideLaw(op: Op, sys: Sys)
    requires op.Decide?
    ensures Decided(op, sys, Apply(op, sys))
  {
  }

  lemma DecidedProgresses(op: Op, sys: Sys, sys': Sys)
    requires op.Decide? && Decided(op, sys, sys')
    ensures AllProgressed(sys.db, sys'.db) && sys.ran <= sys'.ran
  {
  }

  lemma DecidedKeepsApproved(op: Op, sys: Sys, sys': Sys)
    requires op.Decide? && Decided(op, sys, sys') && Approved(sys)
    ensures Approved(sys')
  {
    DecidedProgresses(op, sys, sys');
    forall i | 0 <= i < |sys.ran| ensures IsRun(sys'.db, sys.ran[i]) {
      assert IsRun(sys.db, sys.ran[i]);
      if sys.ran[i].approval.Some? {
        var a := sys.ran[i].approval.value;
        assert Progressed(sys.db[a].body, sys'.db[a].body);
      }
    }
    if sys'.ran != sys.ran {
      forall i | 0 <= i < |sys.ran| ensures sys.ran[i].approval != Some(op.id) {
        assert IsRun(sys.db, sys.ran[i]);
      }
    }
  }

  /** In every reachable store each approval belongs to one finished action, with that action's call. */
  lemma {:induction false} RunsAreApproved(ops: seq<Op>)
    ensures Approved(Run(ops))
  {
    if ops != [] {
      var op, sys := ops[|ops| - 1], Run(ops[..|ops| - 1]);
      RunsAreApproved(ops[..|ops| - 1]);
      if op.Chat? {
        TurnKeepsApproved(op, sys);
      } else {
        DecideLaw(op, sys);
        DecidedKeepsApproved(op, sys, Apply(op, sys));
      }
    }
  }

  predicate HasRun(ran: seq<ToolRun>, id: nat) {
    exists i :: 0 <= i < |ran| && ran[i].approval == Some(id)
  }

  predicate AccountedAt(body: Body, ran: seq<ToolRun>, id: nat) {
    body.Action? ==> IsConfirm(body.call.name) && (body.status in {Executed, Failed} <==> HasRun(ran, id))
  }

  /** The stored status of every action tells whether its tool has run. */
  ghost predicate Accounted(sys: Sys) {
    forall a :: 0 <= a < |sys.db| ==> AccountedAt(sys.db[a].body, sys.ran, a)
  }

  lemma GrewKeepsAccounts(allow: bool, t: string, sys: Sys, sys': Sys)
    requires Grew(allow, t, sys, sys') && Approved(sys) && Accounted(sys)
    ensures Accounted(sys')
  {
    forall a | 0 <= a < |sys'.db| ensures AccountedAt(sys'.db[a].body, sys'.ran, a) {
      NoNewApprovals(sys.ran, sys'.ran, a);
      if a < |sys.db| {
        assert sys'.db[a] == sys.db[a] && AccountedAt(sys.db[a].body, sys.ran, a);
      } else {
        NoRunOfAbsent(sys, a);
      }
    }
  }

  lemma NoNewApprovals(ran: seq<ToolRun>, ran': seq<ToolRun>, id: nat)
    requires ran <= ran' && forall i :: |ran| <= i < |ran'| ==> ran'[i].approval == None
    ensures HasRun(ran', id) <==> HasRun(ran, id)
  {
    if HasRun(ran, id) {
      var i :| 0 <= i < |ran| && ran[i].approval == Some(id);
      assert ran'[i] == ran[i];
    }
  }

  lemma NoRunOfAbsent(sys: Sys, id: nat)
    requires Approved(sys) && id >= |sys.db|
    ensures !HasRun(sys.ran, id)
  {
    forall i | 0 <= i < |sys.ran| ensures sys.ran[i].approval != Some(id) {
      assert IsRun(sys.db, sys.ran[i]);
    }
  }

  lemma OneMoreRun(ran: seq<ToolRun>, r: ToolRun, id: nat)
    ensures HasRun(ran + [r], id) <==> HasRun(ran, id) || r.approval == Some(id)
  {
    var more := ran + [r];
    assert more[|ran|] == r;
    if HasRun(ran, id) {
      var i :| 0 <= i < |ran| && ran[i].approval == Some(id);
      assert more[i] == ran[i];
    }
  }

  lemma DecidedKeepsAccounts(op: Op, sys: Sys, sys': Sys)
    requires op.Decide? && Decided(op, sys, sys') && Accounted(sys)
    ensures Accounted(sys')
  {
    if sys' != sys {
      assert AccountedAt(sys.db[op.id].body, sys.ran, op.id);
      forall a | 0 <= a < |sys'.db| ensures AccountedAt(sys'.db[a].body, sys'.ran, a) {
        if a < |sys.db| { assert AccountedAt(sys.db[a].body, sys.ran, a); }
        if sys'.ran != sys.ran { OneMoreRun(sys.ran, sys'.ran[|sys.ran|], a); }
      }
    }
  }

  /**
   * In every reachable store an action is marked executed or failed exactly when its
   * tool has run for it: a pending or rejected one never ran, a marked one did.
   */
  lemma {:induction false} RunsAreAccounted(ops: seq<Op>)
    ensures Accounted(Run(ops))
  {
    if ops != [] {
      var op, sys := ops[|ops| - 1], Run(ops[..|ops| - 1]);
      RunsAreAccounted(ops[..|ops| - 1]);
      RunsAreApproved(ops[..|ops| - 1]);
      if op.Chat? {
        TurnGrew(op.w, op.thread, op.t, op.text, op.allow, op.cap, op.rounds, sys);
        GrewKeepsAccounts(op.allow, op.t, sys, Apply(op, sys));
      } else {
        DecideLaw(op, sys);
        DecidedKeepsAccounts(op, sys, Apply(op, sys));
      }
    }
  }

  lemma ProgressTransitive(a: seq<Row>, b: seq<Row>, c: seq<Row>)
    requires AllProgressed(a, b) && AllProgressed(b, c)
    ensures AllProgressed(a, c)
  {
    forall i | 0 <= i < |a| ensures Progressed(a[i].body, c[i].body) && c[i] == a[i].(body := c[i].body) {
      assert Progressed(a[i].body, b[i].body) && Progressed(b[i].body, c[i].body);
    }
  }

  lemma StepProgresses(op: Op, sys: Sys)
    ensures AllProgressed(sys.db, Apply(op, sys).db) && sys.ran <= Apply(op, sys).ran
  {
    if op.Chat? {
      TurnProgresses(op, sys);
    } else {
      DecideLaw(op, sys);
      DecidedProgresses(op, sys, Apply(op, sys));
    }
  }

  /**
   * Along every run an action that has left `pending` never changes again, no row is lost
   * or edited otherwise, and the log of tool runs only grows.
   */
  lemma {:induction false} SettledActionsAreFinal(ops: seq<Op>, more: seq<Op>)
    ensures AllProgressed(Run(ops).db, Run(ops + more).db)
    ensures Run(ops).ran <= Run(ops + more).ran
    decreases |more|
  {
    if more == [] {
      assert ops + more == ops;
    } else {
      var n := |more| - 1;
      var before := ops + more[..n];
      assert ops + more == before + [more[n]];
      RunSnoc(before, more[n]);
      SettledActionsAreFinal(ops, more[..n]);
      StepProgresses(more[n], Run(before));
      ProgressTransitive(Run(ops).db, Run(before).db, Run(ops + more).db);
    }
  }

  // ---- which gated tools run without an approval ----

  /** Tool run `i` of the log was made by step `k`. */
  predicate MadeBy(ops: seq<Op>, k: nat, i: nat) {
    k < |ops| && |Run(ops[..k]).ran| <= i < |Run(ops[..k + 1]).ran|
  }

  /** Runs a step adds: an actions-off turn and no other step runs gated tools without an approval. */
  lemma StepLog(op: Op, sys: Sys, i: nat)
    requires |sys.ran| <= i < |Apply(op, sys).ran| && IsConfirm(Apply(op, sys).ran[i].name)
    ensures Apply(op, sys).ran[i].approval.None? <==> op.Chat? && !op.allow
  {
    if op.Chat? {
      TurnGrew(op.w, op.thread, op.t, op.text, op.allow, op.cap, op.rounds, sys);
    } else {
      DecideLaw(op, sys);
    }
  }

  /** The log of a run contains what its earlier stages logged, at the same place. */
  lemma LogPrefix(ops: seq<Op>, k: nat)
    requires k <= |ops|
    ensures Run(ops[..k]).ran <= Run(ops).ran
  {
    CutAndJoined(ops, k);
    LogGrows(ops, ops[..k], ops[k..]);
  }

  lemma CutAndJoined(ops: seq<Op>, k: nat)
    requires k <= |ops|
    ensures ops == ops[..k] + ops[k..]
  {
  }

  lemma LogGrows(all: seq<Op>, ops: seq<Op>, more: seq<Op>)
    requires all == ops + more
    ensures Run(ops).ran <= Run(all).ran
  {
    SettledActionsAreFinal(ops, more);
  }

  lemma StepLogIn(op: Op, sys: Sys, log: seq<ToolRun>, i: nat)
    requires Apply(op, sys).ran <= log && |sys.ran| <= i < |Apply(op, sys).ran| && IsConfirm(log[i].name)
    ensures log[i].approval.None? <==> op.Chat? && !op.allow
  {
    assert log[i] == Apply(op, sys).ran[i];
    StepLog(op, sys, i);
  }

  lemma Stage(ops: seq<Op>, k: nat)
    requires k < |ops|
    ensures Run(ops[..k + 1]) == Apply(ops[k], Run(ops[..k]))
  {
    assert ops[..k + 1] == ops[..k] + [ops[k]];
    RunSnoc(ops[..k], ops[k]);
  }

  /** Over all mixed runs a gated tool ran without an approval if and only if a turn with actions off ran it. */
  lemma UnapprovedIffActionsOff(ops: seq<Op>, k: nat, i: nat)
    requires i < |Run(ops).ran| && IsConfirm(Run(ops).ran[i].name) && MadeBy(ops, k, i)
    ensures Run(ops).ran[i].approval.None? <==> ops[k].Chat? && !ops[k].allow
  {
    LogPrefix(ops, k + 1);
    Stage(ops, k);
    StepLogIn(ops[k], Run(ops[..k]), Run(ops).ran, i);
  }

  /** Every tool run of the log was made by some step. */
  lemma {:induction false} SomeStepMadeIt(ops: seq<Op>, i: nat) returns (k: nat)
    requires i < |Run(ops).ran|
    ensures MadeBy(ops, k, i)
  {
    var n := |ops| - 1;
    assert ops[..n + 1] == ops;
    if i < |Run(ops[..n]).ran| {
      k := SomeStepMadeIt(ops[..n], i);
      assert ops[..n][..k] == ops[..k] && ops[..n][..k + 1] == ops[..k + 1];
    } else {
      k := n;
    }
  }

  /** Tool run `i` was made by a turn with actions off. */
  ghost predicate MadeWithActionsOff(ops: seq<Op>, i: nat) {
    exists k: nat :: MadeBy(ops, k, i) && ops[k].Chat? && !ops[k].allow
  }

  lemma ApprovedIffActionsOn(ops: seq<Op>, i: nat)
    requires i < |Run(ops).ran| && IsConfirm(Run(ops).ran[i].name)
    ensures Run(ops).ran[i].approval.Some? <==> !MadeWithActionsOff(ops, i)
  {
    var k := SomeStepMadeIt(ops, i);
    UnapprovedIffActionsOff(ops, k, i);
    if MadeWithActionsOff(ops, i) {
      var j: nat :| MadeBy(ops, j, i) && ops[j].Chat? && !ops[j].allow;
      UnapprovedIffActionsOff(ops, j, i);
    }
  }

  predicate Gated(r: ToolRun) {
    IsConfirm(r.name) ==> r.approval.Some?
  }

  /** So in a reachable store every gated run is approved exactly when no turn with actions off made one. */
  lemma RunsAreGatedIff(ops: seq<Op>)
    ensures (forall i :: 0 <= i < |Run(ops).ran| ==> Gated(Run(ops).ran[i]))
            <==> (forall i :: 0 <= i < |Run(ops).ran| && IsConfirm(Run(ops).ran[i].name) ==>
                !MadeWithActionsOff(ops, i))
  {
    var ran := Run(ops).ran;
    forall i | 0 <= i < |ran| ensures Gated(ran[i]) <==> (IsConfirm(ran[i].name) ==> !MadeWithActionsOff(ops, i)) {
      if IsConfirm(ran[i].name) { ApprovedIffActionsOn(ops, i); }
    }
  }
}
