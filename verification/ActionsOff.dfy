/**
 * Which tools a turn runs (forven/assistant_session.py, run_turn): with actions allowed
 * gated calls become confirm cards, with actions off every call of the model is run.
 */
module ActionsOff {
  import opened Basics
  import opened Transcript
  import opened TurnSpec
  import opened TurnSafety
  import opened TurnRuns
  import MS = ModelStream

  // ---- the calls of one reply ----

  /** The tool runs the calls of one reply lead to. */
  function RunsOf(allow: bool, calls: seq<Call>): seq<ToolRun> {
    if calls == [] then []
    else if allow && IsConfirm(calls[0].name) then RunsOf(allow, calls[1..])
    else [ToolRun(calls[0].name, calls[0].input, None)] + RunsOf(allow, calls[1..])
  }

  /** With actions off all calls of a reply run, in order and unapproved; with actions on exactly the ungated ones. */
  lemma {:induction false} CallsRun(w: World, t: string, allow: bool, calls: seq<Call>, s: Turn)
    ensures AnswerCalls(w, t, allow, calls, s).ran == s.ran + RunsOf(allow, calls)
    decreases |calls|
  {
    if calls != [] {
      var s' := AnswerCall(w, t, allow, calls[0], s);
      CallsRun(w, t, allow, calls[1..], s');
      if !(allow && IsConfirm(calls[0].name)) {
        Reassociate(s.ran, [ToolRun(calls[0].name, calls[0].input, None)], RunsOf(allow, calls[1..]));
      }
    }
  }

  // ---- the log of a turn with actions off ----

  /** The tool runs whose results these rows are. */
  function ResultRuns(rows: seq<Row>): seq<ToolRun> {
    if rows == [] then []
    else
      var last := rows[|rows| - 1].body;
      ResultRuns(rows[..|rows| - 1])
      + (if last.Tool? then [ToolRun(last.call.name, last.call.input, None)] else [])
  }

  lemma {:induction false} ResultRunsCompose(a: seq<Row>, b: seq<Row>)
    ensures ResultRuns(a + b) == ResultRuns(a) + ResultRuns(b)
  {
    if b == [] {
      assert a + b == a;
    } else {
      assert (a + b)[..|a + b| - 1] == a + b[..|b| - 1];
      ResultRunsCompose(a, b[..|b| - 1]);
    }
  }

  lemma ResultRunsOne(r: Row)
    ensures ResultRuns([r]) == if r.body.Tool? then [ToolRun(r.body.call.name, r.body.call.input, None)] else []
  {
    assert [r][..0] == [];
  }

  /** The log grew by exactly the results that were stored. */
  ghost predicate Logged(before: Sys, after: Sys) {
    before.db <= after.db && after.ran == before.ran + ResultRuns(after.db[|before.db|..])
  }

  lemma LoggedItself(a: Sys)
    ensures Logged(a, a)
  {
    assert a.db[|a.db|..] == [];
  }

  lemma LoggedTransitive(a: Sys, b: Sys, c: Sys)
    requires Logged(a, b) && Logged(b, c)
    ensures Logged(a, c)
  {
    var first, second := b.db[|a.db|..], c.db[|b.db|..];
    SliceJoins(a.db, b.db, c.db);
    ResultRunsCompose(first, second);
    Reassociate(a.ran, ResultRuns(first), ResultRuns(second));
  }

  lemma SliceJoins(a: seq<Row>, b: seq<Row>, c: seq<Row>)
    requires a <= b <= c
    ensures c[|a|..] == b[|a|..] + c[|b|..] && a <= c
  {
  }

  lemma Reassociate(a: seq<ToolRun>, b: seq<ToolRun>, c: seq<ToolRun>)
    ensures a + b + c == a + (b + c)
  {
  }

  /** One stored row, with the run it is the result of, if any. */
  lemma LoggedRow(before: Sys, after: Sys)
    requires |after.db| == |before.db| + 1 && before.db <= after.db
    requires var r := after.db[|before.db|];
             after.ran ==
             before.ran + (if r.body.Tool? then [ToolRun(r.body.call.name, r.body.call.input, None)] else [])
    ensures Logged(before, after)
  {
    assert after.db[|before.db|..] == [after.db[|before.db|]];
    ResultRunsOne(after.db[|before.db|]);
  }

  lemma {:induction false} CallsLogged(w: World, t: string, calls: seq<Call>, s: Turn)
    ensures Logged(At(s), At(AnswerCalls(w, t, false, calls, s)))
    decreases |calls|
  {
    if calls == [] {
      LoggedItself(At(s));
    } else {
      var s' := Execute(w, t, calls[0], s);
      LoggedRow(At(s), At(s'));
      CallsLogged(w, t, calls[1..], s');
      LoggedTransitive(At(s), At(s'), At(AnswerCalls(w, t, false, calls[1..], s')));
    }
  }

  lemma AnsweredLogged(w: World, t: string, cap: real, f: MS.Item, content: string, s: Turn)
    requires f.Final?
    ensures Logged(At(s), At(Answered(w, t, false, cap, f, content, s).s))
  {
    var spoken := Spoken(t, f, content, s);
    LoggedRow(At(s), At(spoken));
    CallsLogged(w, t, f.calls, spoken);
    LoggedTransitive(At(s), At(spoken), At(AnswerCalls(w, t, false, f.calls, spoken)));
  }

  lemma RoundLogged(w: World, t: string, cap: real, rounds: nat, r: nat, s: Turn)
    ensures Logged(At(s), At(Round(w, t, false, cap, rounds, r, s).s))
  {
    LoggedItself(At(s));
    if w.reply(r).Streams? {
      HeardLogged(w, t, cap, MS.Stream(w.reply(r).script), Asked(Nudged(rounds, r, s)));
    }
  }

  lemma HeardLogged(w: World, t: string, cap: real, items: seq<MS.Item>, s: Turn)
    ensures Logged(At(s), At(Heard(w, t, false, cap, items, s).s))
  {
    LoggedItself(At(s));
    if LastFinal(items).Some? && !Errored(LastFinal(items).value) {
      var f := LastFinal(items).value;
      AnsweredLogged(w, t, cap, f, Content(f, items), s.(events := s.events + Tokens(items)));
    }
  }

  lemma LandingLogged(w: World, t: string, rounds: nat, s: Turn)
    ensures Logged(At(s), At(Landing(w, t, rounds, s)))
  {
    LoggedItself(At(s));
    if w.reply(rounds).Streams? { LandLogged(t, MS.Stream(w.reply(rounds).script), Asked(Forced(s))); }
  }

  lemma LandLogged(t: string, items: seq<MS.Item>, s: Turn)
    ensures Logged(At(s), At(Land(t, items, s)))
  {
    LoggedItself(At(s));
    if LandText(items) != "" { LoggedRow(At(s), At(Land(t, items, s))); }
  }

  lemma {:induction false} TurnFromLogged(w: World, t: string, cap: real, rounds: nat, r: nat, s: Turn)
    requires r <= rounds
    ensures Logged(At(s), At(TurnFrom(w, t, false, cap, rounds, r, s)))
    decreases rounds - r
  {
    if r == rounds {
      LandingLogged(w, t, rounds, s);
    } else {
      var h := OneRound(w, t, false, cap, rounds, r, s);
      RoundLogged(w, t, cap, rounds, r, s);
      if h.Again? {
        TurnFromLogged(w, t, cap, rounds, r + 1, h.s);
        LoggedTransitive(At(s), At(h.s), At(TurnFrom(w, t, false, cap, rounds, r + 1, h.s)));
      }
    }
  }

  lemma OpenedLogged(t: string, text: string, sys: Sys) returns (s0: Turn)
    ensures s0 == Opened(t, text, sys.db, sys.ran) && Logged(sys, At(s0))
  {
    s0 := Opened(t, text, sys.db, sys.ran);
    LoggedRow(sys, At(s0));
  }

  lemma OffTurnLogged(op: Op, sys: Sys)
    requires op.Chat? && !op.allow
    ensures Logged(sys, Apply(op, sys))
  {
    LoggedItself(sys);
    if op.thread.Live? && Cost(Of(sys.db, op.t)) < op.cap {
      var s0 := OpenedLogged(op.t, op.text, sys);
      LiveTurn(op.w, op.t, op.text, false, op.cap, op.rounds, sys.db, sys.ran, s0);
      TurnFromLogged(op.w, op.t, op.cap, op.rounds, 0, s0);
      LoggedTransitive(sys, At(s0), At(TurnFrom(op.w, op.t, false, op.cap, op.rounds, 0, s0)));
    }
  }

  // ---- when a step runs a gated tool ----

  /** The step approves a pending action of its thread whose stored call names a gated tool. */
  predicate ApprovesGated(op: Op, sys: Sys) {
    && op.Decide? && op.approve && !op.thread.Missing? && op.id < |sys.db| && sys.db[op.id].thread == op.t
    && sys.db[op.id].body.Action? && sys.db[op.id].body.status == Pending && IsConfirm(sys.db[op.id].body.call.name)
  }

  predicate IsGatedResult(body: Body) {
    body.Tool? && IsConfirm(body.call.name)
  }

  /** The step is a turn with actions off that stores the result of a gated call. */
  ghost predicate RunsGatedUnasked(op: Op, sys: Sys) {
    && op.Chat? && !op.allow
    && exists i :: |sys.db| <= i < |Apply(op, sys).db| && IsGatedResult(Apply(op, sys).db[i].body)
  }

  ghost predicate HasGated(ran: seq<ToolRun>, from: nat) {
    exists i :: from <= i < |ran| && IsConfirm(ran[i].name)
  }

  lemma {:induction false} GatedResults(rows: seq<Row>)
    ensures HasGated(ResultRuns(rows), 0) <==> exists i :: 0 <= i < |rows| && IsGatedResult(rows[i].body)
  {
    if rows != [] {
      var n := |rows| - 1;
      GatedResults(rows[..n]);
      var front, all := ResultRuns(rows[..n]), ResultRuns(rows);
      if HasGated(front, 0) {
        var i :| 0 <= i < |front| && IsConfirm(front[i].name);
        assert all[i] == front[i];
      }
      if HasGated(all, 0) {
        var i :| 0 <= i < |all| && IsConfirm(all[i].name);
        if i < |front| { assert front[i] == all[i]; }
      }
      if IsGatedResult(rows[n].body) { assert IsConfirm(all[|front|].name); }
      if i :| 0 <= i < n && IsGatedResult(rows[i].body) { assert IsGatedResult(rows[..n][i].body); }
      if i :| 0 <= i < n && IsGatedResult(rows[..n][i].body) { assert IsGatedResult(rows[i].body); }
    }
  }

  lemma GatedFrom(ran: seq<ToolRun>, more: seq<ToolRun>)
    ensures HasGated(ran + more, |ran|) <==> HasGated(more, 0)
  {
    if HasGated(more, 0) {
      var i :| 0 <= i < |more| && IsConfirm(more[i].name);
      assert (ran + more)[|ran| + i] == more[i];
    }
    if HasGated(ran + more, |ran|) {
      var i :| |ran| <= i < |ran + more| && IsConfirm((ran + more)[i].name);
      assert more[i - |ran|] == (ran + more)[i];
    }
  }

  lemma LoggedGated(sys: Sys, sys': Sys)
    requires Logged(sys, sys')
    ensures HasGated(sys'.ran, |sys.ran|) <==>
            exists i :: |sys.db| <= i < |sys'.db| && IsGatedResult(sys'.db[i].body)
  {
    var rows := sys'.db[|sys.db|..];
    GatedFrom(sys.ran, ResultRuns(rows));
    GatedResults(rows);
    if i :| 0 <= i < |rows| && IsGatedResult(rows[i].body) { assert IsGatedResult(sys'.db[|sys.db| + i].body); }
    if i :| |sys.db| <= i < |sys'.db| && IsGatedResult(sys'.db[i].body) {
      assert rows[i - |sys.db|] == sys'.db[i];
    }
  }

  /**
   * A gated tool runs in a step if and only if the step approves a pending action of that
   * thread whose stored call names a gated tool, or is a turn with actions off that stores
   * the result of a gated call.
   */
  lemma GatedRunIff(op: Op, sys: Sys)
    ensures HasGated(Apply(op, sys).ran, |sys.ran|) <==> ApprovesGated(op, sys) || RunsGatedUnasked(op, sys)
  {
    if op.Decide? {
      DecideGatedIff(op, sys);
    } else if op.allow {
      TurnGrew(op.w, op.thread, op.t, op.text, op.allow, op.cap, op.rounds, sys);
    } else {
      OffTurnLogged(op, sys);
      LoggedGated(sys, Apply(op, sys));
    }
  }

  lemma DecideGatedIff(op: Op, sys: Sys)
    requires op.Decide?
    ensures HasGated(Apply(op, sys).ran, |sys.ran|) <==> ApprovesGated(op, sys)
  {
    var ran := Apply(op, sys).ran;
    if ApprovesGated(op, sys) { assert ran[|sys.ran|].name == sys.db[op.id].body.call.name; }
  }

  // ---- a gated run nobody approved ----

  const PROMOTE: Call := MS.Call("1", "promote_strategy", "{}")

  lemma PromotingScript() returns (script: MS.Script)
    ensures MS.Stream(script) == [MS.Final("", [PROMOTE], None, None)]
  {
    var step := MS.Response("", [PROMOTE], None);
    script := MS.Script(k => MS.Attempt([step], MS.Finished), MS.Answered(""));
    assert MS.Emit([step]) == MS.EmitStep(step) + MS.Emit([]);
  }

  lemma FreeRowsCostNothing(content: string)
    ensures var db := Appended([], "t", User("hi"), None);
            Cost(Of(Appended(db, "t", Assistant(content, [PROMOTE]), None), "t")) == 0.0
  {
    AppendOwed([], "t", User("hi"), None, []);
    AppendOwed(Appended([], "t", User("hi"), None), "t", Assistant(content, [PROMOTE]), None, []);
  }

  lemma PromotingAnswer(w: World, content: string, s: Turn) returns (after: Turn)
    requires s.db == Appended([], "t", User("hi"), None) && s.ran == []
    ensures Answered(w, "t", false, 1.0, MS.Final("", [PROMOTE], None, None), content, s) == Again(after)
    ensures after.ran == [ToolRun("promote_strategy", "{}", None)]
  {
    var spoken := Spoken("t", MS.Final("", [PROMOTE], None, None), content, s);
    FreeRowsCostNothing(content);
    after := AnswerCalls(w, "t", false, [PROMOTE], spoken);
    CallsRun(w, "t", false, [PROMOTE], spoken);
    assert RunsOf(false, [PROMOTE]) == [ToolRun(PROMOTE.name, PROMOTE.input, None)] + RunsOf(false, []);
  }

  /** The round in which the model asks for the promotion: it is run there and then. */
  lemma PromotingRound(w: World, script: MS.Script, s0: Turn) returns (after: Turn)
    requires w.reply(0) == Streams(script) && MS.Stream(script) == [MS.Final("", [PROMOTE], None, None)]
    requires s0.db == Appended([], "t", User("hi"), None) && s0.ran == []
    ensures Round(w, "t", false, 1.0, 2, 0, s0) == Again(after)
    ensures after.ran == [ToolRun("promote_strategy", "{}", None)]
  {
    var items := [MS.Final("", [PROMOTE], None, None)];
    assert LastFinal(items) == Some(items[0]);
    var s1 := Asked(Nudged(2, 0, s0));
    after := PromotingAnswer(w, Content(items[0], items), s1.(events := s1.events + Tokens(items)));
  }

  /** One turn with actions off in which the model calls a gated tool runs it, and no action row was ever stored. */
  lemma OffTurnRunsGatedTool() returns (op: Op)
    ensures op.Chat? && !op.allow
    ensures HasGated(Run([op]).ran, 0) && forall i :: 0 <= i < |Run([op]).db| ==> !Run([op]).db[i].body.Action?
  {
    var script := PromotingScript();
    var w := World(r => if r == 0 then Streams(script) else Refused("stop"), n => "done", o => None, (n, i) => "");
    op := Chat(w, Live, "t", "hi", false, 1.0, 2);
    RunSnoc([], op);
    assert [] + [op] == [op];
    var s0 := OpenedLogged("t", "hi", Sys([], []));
    LiveTurn(w, "t", "hi", false, 1.0, 2, [], [], s0);
    var after := PromotingRound(w, script, s0);
    var _ := OneRound(w, "t", false, 1.0, 2, 0, s0);
    var _ := OneRound(w, "t", false, 1.0, 2, 1, after);
    assert Run([op]).ran == after.ran && IsConfirm(Run([op]).ran[0].name);
    TurnGrew(w, Live, "t", "hi", false, 1.0, 2, Sys([], []));
    assert Grew(false, "t", Sys([], []), Run([op]));
  }
}
