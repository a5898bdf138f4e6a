/**
 * Two promises of the assistant that do not hold on every turn, and exactly when they
 * do: that a failed invocation surfaces as an error, and that every call is answered.
 */
module TurnFailures {
  import opened Basics
  import opened Transcript
  import opened TurnSpec
  import opened TurnSafety
  import MS = ModelStream
  import Text

  // ---- a failed invocation ----

  /** Round `r` takes the turn from `s` to `after`, with more to come. */
  predicate GoesOn(w: World, t: string, allow: bool, cap: real, rounds: nat, r: nat, s: Turn, after: Turn) {
    Round(w, t, allow, cap, rounds, r, s) == Again(after)
  }

  /** `states[i]` is the turn as it enters round `i`; round `rounds` is the forced final answer. */
  ghost predicate Course(w: World, t: string, allow: bool, cap: real, rounds: nat, states: seq<Turn>) {
    && 0 < |states| <= rounds + 1
    && forall i :: 0 <= i < |states| - 1 ==> GoesOn(w, t, allow, cap, rounds, i, states[i], states[i + 1])
  }

  /** The turn stored `text` as a finished answer and ended on it. */
  predicate PassedForAnswer(s: Turn, before: Turn, t: string, text: string) {
    && s.db == Appended(before.db, t, Assistant(text, []), None)
    && s.events != [] && s.events[|s.events| - 1] == Done(|before.db|)
  }

  predicate EndedOn(s: Turn, e: Event) {
    s.events != [] && s.events[|s.events| - 1] == e
  }

  lemma FailedRound(w: World, t: string, allow: bool, cap: real, items: seq<MS.Item>, message: string, s: Turn)
    requires MS.EndsOnFailure(items, message)
    ensures var h := Heard(w, t, allow, cap, items, s);
            && h.Over?
            && (message != "" ==> EndedOn(h.s, Error("provider", message)))
            && (message == "" ==> PassedForAnswer(h.s, s, t, Text.Join(MS.Texts(items))))
  {
    assert LastFinal(items) == Some(MS.Failure(message));
  }

  lemma FailedLanding(t: string, items: seq<MS.Item>, message: string, s: Turn)
    requires MS.EndsOnFailure(items, message)
    ensures var text := Text.Strip(Text.Join(MS.Texts(items)));
            if message == "" && text != "" then PassedForAnswer(Land(t, items, s), s, t, text)
            else EndedOn(Land(t, items, s), Error("max_rounds", "round limit"))
  {
    assert LastFinal(items) == Some(MS.Failure(message));
  }

  /** The invocation fails with this text: before its first attempt, mid-stream, or in its fallback. */
  predicate Fails(i: Invocation, message: string) {
    match i
    case Streams(script) => MS.FailureOf(script, 0) == Some(message)
    case Refused(m) => m == message
  }

  /**
   * What a turn comes to when the invocation of round `r` fails with `message`. Before its
   * first attempt: the turn ends on `internal`, with nothing sent or stored, in every round.
   * Later, in a tool round: it ends on that error exactly when the exception has a text,
   * otherwise whatever was shown is stored as a finished answer. In the forced final answer
   * that happens exactly when there is no text and something other than blanks was shown;
   * otherwise the turn ends on `max_rounds`.
   */
  predicate FailureOutcome(w: World, t: string, rounds: nat, r: nat, before: Turn, message: string, s: Turn) {
    match w.reply(r)
    case Refused(_) => EndedOn(s, Error("internal", message)) && s.db == before.db && s.sent == before.sent
    case Streams(script) =>
      var shown := Text.Join(MS.Texts(MS.Stream(script)));
      if r < rounds then
        if message != "" then EndedOn(s, Error("provider", message)) else PassedForAnswer(s, before, t, shown)
      else
        if message == "" && Text.Strip(shown) != "" then PassedForAnswer(s, before, t, Text.Strip(shown))
        else EndedOn(s, Error("max_rounds", "round limit"))
  }

  lemma FailedNow(w: World, t: string, allow: bool, cap: real, rounds: nat, r: nat, before: Turn, message: string)
    requires r <= rounds && Fails(w.reply(r), message)
    ensures FailureOutcome(w, t, rounds, r, before, message, TurnFrom(w, t, allow, cap, rounds, r, before))
  {
    if w.reply(r).Streams? {
      var script := w.reply(r).script;
      MS.FailedEndsOnFailure(script, 0, message);
      if r < rounds {
        FailedRound(w, t, allow, cap, MS.Stream(script), message, Asked(Nudged(rounds, r, before)));
        var _ := OneRound(w, t, allow, cap, rounds, r, before);
      } else {
        FailedLanding(t, MS.Stream(script), message, Asked(Forced(before)));
      }
    } else if r < rounds {
      var _ := OneRound(w, t, allow, cap, rounds, r, before);
    }
  }

  /** The tool loop over any round and any landing. */
  function Loop(round: (nat, Turn) -> RoundResult, land: Turn -> Turn, rounds: nat, r: nat, s: Turn): Turn
    requires r <= rounds
    decreases rounds - r
  {
    if r == rounds then land(s)
    else
      match round(r, s)
      case Over(end) => end
      case Again(after) => Loop(round, land, rounds, r + 1, after)
  }

  function RoundOf(w: World, t: string, allow: bool, cap: real, rounds: nat): (nat, Turn) -> RoundResult {
    (r: nat, s: Turn) => Round(w, t, allow, cap, rounds, r, s)
  }

  function LandingOf(w: World, t: string, rounds: nat): Turn -> Turn {
    (s: Turn) => Landing(w, t, rounds, s)
  }

  lemma {:induction false} TurnIsLoop(w: World, t: string, allow: bool, cap: real, rounds: nat, r: nat, s: Turn,
                                      end: Turn)
    requires r <= rounds && end == TurnFrom(w, t, allow, cap, rounds, r, s)
    ensures end == Loop(RoundOf(w, t, allow, cap, rounds), LandingOf(w, t, rounds), rounds, r, s)
    decreases rounds - r
  {
    if r < rounds {
      var h := OneRound(w, t, allow, cap, rounds, r, s);
      assert RoundOf(w, t, allow, cap, rounds)(r, s) == h;
      if h.Again? { TurnIsLoop(w, t, allow, cap, rounds, r + 1, h.s, end); }
    }
  }

  lemma {:induction false} LoopFollows(round: (nat, Turn) -> RoundResult, land: Turn -> Turn, rounds: nat,
                                       states: seq<Turn>, n: nat)
    requires n < |states| <= rounds + 1
    requires forall i :: 0 <= i < |states| - 1 ==> round(i, states[i]) == Again(states[i + 1])
    ensures Loop(round, land, rounds, 0, states[0]) == Loop(round, land, rounds, n, states[n])
  {
    if n > 0 { LoopFollows(round, land, rounds, states, n - 1); }
  }

  lemma CourseLeads(w: World, t: string, allow: bool, cap: real, rounds: nat, states: seq<Turn>, end: Turn, end': Turn)
    requires Course(w, t, allow, cap, rounds, states)
    requires end == TurnFrom(w, t, allow, cap, rounds, 0, states[0])
    requires end' == TurnFrom(w, t, allow, cap, rounds, |states| - 1, states[|states| - 1])
    ensures end == end'
  {
    var n := |states| - 1;
    TurnIsLoop(w, t, allow, cap, rounds, 0, states[0], end);
    TurnIsLoop(w, t, allow, cap, rounds, n, states[n], end');
    CourseLoops(w, t, allow, cap, rounds, states);
  }

  lemma CourseLoops(w: World, t: string, allow: bool, cap: real, rounds: nat, states: seq<Turn>)
    requires Course(w, t, allow, cap, rounds, states)
    ensures var round, land, n := RoundOf(w, t, allow, cap, rounds), LandingOf(w, t, rounds), |states| - 1;
            Loop(round, land, rounds, 0, states[0]) == Loop(round, land, rounds, n, states[n])
  {
    var round, land := RoundOf(w, t, allow, cap, rounds), LandingOf(w, t, rounds);
    forall i | 0 <= i < |states| - 1 ensures round(i, states[i]) == Again(states[i + 1]) {
      assert GoesOn(w, t, allow, cap, rounds, i, states[i], states[i + 1]);
    }
    LoopFollows(round, land, rounds, states, |states| - 1);
  }

  /** For every turn in which the invocation of some round fails, whatever came before it. */
  lemma FailureSurfacesIff(w: World, t: string, text: string, allow: bool, cap: real, rounds: nat,
                           db: seq<Row>, ran: seq<ToolRun>, states: seq<Turn>, message: string)
    requires Cost(Of(db, t)) < cap && Course(w, t, allow, cap, rounds, states) && states[0] == Opened(t, text, db, ran)
    requires Fails(w.reply(|states| - 1), message)
    ensures var r := |states| - 1;
            FailureOutcome(w, t, rounds, r, states[r], message, RunTurn(w, Live, t, text, allow, cap, rounds, db, ran))
  {
    var r := |states| - 1;
    var end := TurnFrom(w, t, allow, cap, rounds, r, states[r]);
    LiveTurn(w, t, text, allow, cap, rounds, db, ran, states[0]);
    CourseLeads(w, t, allow, cap, rounds, states, RunTurn(w, Live, t, text, allow, cap, rounds, db, ran), end);
    FailedNow(w, t, allow, cap, rounds, r, states[r], message);
  }

  lemma FragmentScript() returns (script: MS.Script)
    ensures MS.FailureOf(script, 0) == Some("") && Text.Join(MS.Texts(MS.Stream(script))) == "one"
  {
    script := MS.Script(k => MS.Attempt([MS.Delta("one")], MS.Raised("", true)), MS.Answered(""));
    assert MS.Produced(script.attempts(0).steps) by { assert script.attempts(0).steps[0] == MS.Delta("one"); }
    assert MS.Emit([MS.Delta("one")]) == [MS.Shown("one")] + MS.Emit([]);
    assert MS.Stream(script) == [MS.Shown("one")] + [MS.Failure("")];
    MS.ShownAppend([MS.Shown("one")], [MS.Failure("")]);
    assert MS.Texts([MS.Shown("one")]) == ["one"] + MS.Texts([]) && MS.Texts([MS.Failure("")]) == [];
    assert Text.Join(["one"]) == "one" + Text.Join([]);
  }

  /** A stream that breaks off after one word with a textless exception passes for an answer. */
  lemma FragmentCanPassForAnswer() returns (w: World)
    ensures w.reply(0).Streams? && Fails(w.reply(0), "")
    ensures var s := RunTurn(w, Live, "t", "hi", true, 1.0, 2, [], []);
            PassedForAnswer(s, Opened("t", "hi", [], []), "t", "one")
  {
    var script := FragmentScript();
    w := World(r => Streams(script), n => "", o => None, (n, i) => "");
    FailureSurfacesIff(w, "t", "hi", true, 1.0, 2, [], [], [Opened("t", "hi", [], [])], "");
  }

  // ---- an abandoned turn ----

  /** Rows written for these calls: two for a confirm card, one for a tool run. */
  function RowsFor(allow: bool, calls: seq<Call>): nat {
    if calls == [] then 0 else (if allow && IsConfirm(calls[0].name) then 2 else 1) + RowsFor(allow, calls[1..])
  }

  predicate IsAnswer(body: Body) {
    body.Action? || body.Tool?
  }

  /** Rows that answer `n` calls and hold nothing else. */
  ghost predicate Answering(tail: seq<Row>, n: nat) {
    |HistoryToMsgs(tail)| == n && forall i :: 0 <= i < |tail| ==> IsAnswer(tail[i].body)
  }

  lemma AnsweringJoins(a: seq<Row>, m: nat, b: seq<Row>, n: nat)
    requires Answering(a, m) && Answering(b, n)
    ensures Answering(a + b, m + n)
  {
    HistoryCompose(a, b);
  }

  lemma AnsweringOne(r: Row)
    requires IsAnswer(r.body)
    ensures Answering([r], if r.body.Tool? then 1 else 0)
  {
    HistoryOne(r);
  }

  lemma OneAnswerAppends(w: World, t: string, allow: bool, c: Call, s: Turn) returns (tail: seq<Row>)
    ensures Of(AnswerCall(w, t, allow, c, s).db, t) == Of(s.db, t) + tail
    ensures |tail| == (if allow && IsConfirm(c.name) then 2 else 1) && Answering(tail, 1)
  {
    if allow && IsConfirm(c.name) {
      var action := Action(w.summary(c.name, c.input), c, Pending);
      var proposed := Appended(s.db, t, action, None);
      AppendElsewhere(s.db, t, action, None, t);
      AppendElsewhere(proposed, t, Tool(PLACEHOLDER, c), None, t);
      var a, b := proposed[|s.db|], Appended(proposed, t, Tool(PLACEHOLDER, c), None)[|proposed|];
      tail := [a] + [b];
      AnsweringOne(a);
      AnsweringOne(b);
      AnsweringJoins([a], 0, [b], 1);
    } else {
      var output := w.tool(|s.ran|);
      AppendElsewhere(s.db, t, Tool(output, c), None, t);
      tail := [Appended(s.db, t, Tool(output, c), None)[|s.db|]];
      AnsweringOne(tail[0]);
    }
  }

  lemma AnswerStep(w: World, t: string, allow: bool, calls: seq<Call>, s: Turn)
    requires calls != []
    ensures AnswerCalls(w, t, allow, calls, s) ==
            AnswerCalls(w, t, allow, calls[1..], AnswerCall(w, t, allow, calls[0], s))
  {
  }

  lemma {:induction false} AnswersAppend(w: World, t: string, allow: bool, calls: seq<Call>, s: Turn)
    returns (tail: seq<Row>)
    ensures Of(AnswerCalls(w, t, allow, calls, s).db, t) == Of(s.db, t) + tail
    ensures |tail| == RowsFor(allow, calls) && Answering(tail, |calls|)
    decreases |calls|
  {
    tail := [];
    if calls != [] {
      var after := AnswerCall(w, t, allow, calls[0], s);
      var first := OneAnswerAppends(w, t, allow, calls[0], s);
      var rest := AnswersAppend(w, t, allow, calls[1..], after);
      tail := first + rest;
      AnsweringJoins(first, 1, rest, |calls| - 1);
      AnswerStep(w, t, allow, calls, s);
      Reassociate(Of(s.db, t), first, rest);
    }
  }

  lemma Reassociate(a: seq<Row>, b: seq<Row>, c: seq<Row>)
    ensures a + b + c == a + (b + c)
  {
  }

  /** The first `m` calls answered leaves the others waiting. */
  lemma {:induction false} AnswerSome(w: World, t: string, allow: bool, calls: seq<Call>, m: nat, s: Turn,
                                      cut: seq<string>)
    requires m <= |calls| && Waiting(s, t, cut, calls)
    ensures Waiting(AnswerCalls(w, t, allow, calls[..m], s), t, cut, calls[m..])
    decreases m
  {
    if m == 0 {
      assert calls[0..] == calls;
    } else {
      AnswerCallSettlesOne(w, t, allow, s, cut, calls);
      AnswerSome(w, t, allow, calls[1..], m - 1, AnswerCall(w, t, allow, calls[0], s), cut);
      AnswerStep(w, t, allow, calls[..m], s);
      assert calls[..m][0] == calls[0] && calls[..m][1..] == calls[1..][..m - 1] && calls[1..][m - 1..] == calls[m..];
    }
  }

  lemma {:induction false} AnswersHoldNoAssistant(rows: seq<Row>)
    requires forall i :: 0 <= i < |rows| ==> !rows[i].body.Assistant?
    ensures forall i :: 0 <= i < |HistoryToMsgs(rows)| ==> !HistoryToMsgs(rows)[i].AssistantMsg?
  {
    if rows != [] { AnswersHoldNoAssistant(rows[..|rows| - 1]); }
  }

  /** An assistant message with too few messages before the next user message is unanswered. */
  lemma CutShort(front: seq<Msg>, a: Msg, results: seq<Msg>, u: Msg)
    requires a.AssistantMsg? && |results| < |a.calls| && u.UserMsg?
    ensures !AllAnswered(front + [a] + results + [u])
  {
    var ms, i := front + [a] + results + [u], |front|;
    var j := |results|;
    assert ms[i] == a && ms[i + 1 + j] == u;
    assert !AnsweredAt(ms, i, a.calls) by { var c := a.calls[j]; }
  }

  lemma HistoryParts(front: seq<Row>, a: Row, tail: seq<Row>, u: Row)
    ensures HistoryToMsgs(front + [a] + tail + [u]) ==
            HistoryToMsgs(front) + RowToMsgs(a.body) + HistoryToMsgs(tail) + RowToMsgs(u.body)
  {
    HistoryCompose(front + [a] + tail, [u]);
    HistoryCompose(front + [a], tail);
    HistoryCompose(front, [a]);
    HistoryOne(a);
    HistoryOne(u);
  }

  /** The request of a thread whose last speaker was cut short after `tail`, as long as it is within the history. */
  lemma GapShows(pre: seq<Row>, a: Row, tail: seq<Row>, u: Row)
    requires a.body.Assistant? && u.body.User? && |HistoryToMsgs(tail)| < |a.body.calls| && |tail| + 2 <= MAX_HISTORY
    ensures !AllAnswered(HistoryToMsgs(Recent(pre + [a] + tail + [u])))
  {
    var front := RecentKeeps(pre, a, tail, u);
    HistoryParts(front, a, tail, u);
    CutShort(HistoryToMsgs(front), AssistantMsg(a.body.text, a.body.calls), HistoryToMsgs(tail), UserMsg(u.body.text));
  }

  lemma RecentKeeps(pre: seq<Row>, a: Row, tail: seq<Row>, u: Row) returns (front: seq<Row>)
    requires |tail| + 2 <= MAX_HISTORY
    ensures Recent(pre + [a] + tail + [u]) == front + [a] + tail + [u]
  {
    var n := |pre| + |tail| + 2;
    front := pre[if n <= MAX_HISTORY then 0 else n - MAX_HISTORY..];
  }

  lemma GapIsCutOff(pre: seq<Row>, a: Row, tail: seq<Row>, u: Row)
    requires u.body.User? && |tail| + 2 > MAX_HISTORY && forall i :: 0 <= i < |tail| ==> IsAnswer(tail[i].body)
    ensures AllAnswered(HistoryToMsgs(Recent(pre + [a] + tail + [u])))
  {
    var rows := pre + [a] + tail + [u];
    var late := |rows| - MAX_HISTORY - |pre| - 1;
    assert Recent(rows) == tail[late..] + [u];
    AnswersHoldNoAssistant(tail[late..] + [u]);
  }

  lemma SettledNext(t: string, text: string, db: seq<Row>, ran: seq<ToolRun>)
    requires Settled(db, t)
    ensures AllAnswered(Opened(t, text, db, ran).msgs)
  {
    AppendOwed(db, t, User(text), None, []);
    var rows := Of(Appended(db, t, User(text), None), t);
    var owed := CutHistoryIsAnswered(rows);
    PairedMeansAnswered(HistoryToMsgs(Recent(rows)), owed);
  }

  /**
   * A client that goes away when `m` calls have been answered leaves the thread settled
   * if and only if those were all. The next request is then fully answered if and only
   * if those were all, or the model's message has already left the 60-row history.
   */
  lemma AbandonedTurnSettlesIff(w: World, t: string, allow: bool, f: MS.Item, content: string, m: nat, s: Turn,
                                cut: seq<string>, text: string)
    requires f.Final? && m <= |f.calls| && Waiting(s, t, cut, [])
    ensures var left := AnswerCalls(w, t, allow, f.calls[..m], Spoken(t, f, content, s));
            && (Settled(left.db, t) <==> m == |f.calls|)
            && (AllAnswered(Opened(t, text, left.db, left.ran).msgs) <==>
                m == |f.calls| || RowsFor(allow, f.calls[..m]) + 2 > MAX_HISTORY)
  {
    var spoken := Spoken(t, f, content, s);
    var left := AnswerCalls(w, t, allow, f.calls[..m], spoken);
    SpokenWaits(t, f, content, s, cut);
    AnswerSome(w, t, allow, f.calls, m, spoken, cut);
    var db' := Appended(left.db, t, User(text), None);
    AppendElsewhere(left.db, t, User(text), None, t);
    if m == |f.calls| {
      SettledNext(t, text, left.db, left.ran);
    } else {
      AppendElsewhere(s.db, t, Assistant(content, f.calls), f.cost, t);
      var a, u := spoken.db[|s.db|], db'[|left.db|];
      var tail := AnswersAppend(w, t, allow, f.calls[..m], spoken);
      assert Of(db', t) == Of(s.db, t) + [a] + tail + [u];
      if |tail| + 2 <= MAX_HISTORY {
        GapShows(Of(s.db, t), a, tail, u);
      } else {
        GapIsCutOff(Of(s.db, t), a, tail, u);
      }
    }
  }

  // ---- a turn that runs into its cost cap, and a cap raised after it ----

  const CAPPED: Event := Error("cost_cap", "cost cap reached mid-turn")

  /** Settled, and its thread's next request fully answered, exactly unless the turn ended on the mid-turn cap. */
  ghost predicate SoundUnlessCapped(t: string, text: string, s: Turn) {
    && (Settled(s.db, t) <==> !EndedOn(s, CAPPED))
    && (AllAnswered(Opened(t, text, s.db, s.ran).msgs) <==> !EndedOn(s, CAPPED))
  }

  /** Stopped by the cap with its last answer's calls unanswered. */
  ghost predicate StoppedByCap(t: string, cut: seq<string>, s: Turn, f: MS.Item, content: string, before: Turn) {
    && f.Final? && f.calls != [] && Waiting(before, t, cut, [])
    && s == Emitted(Spoken(t, f, content, before), CAPPED)
  }

  /** The two ways a turn ends. */
  ghost predicate EndKind(t: string, cut: seq<string>, s: Turn) {
    || (Settled(s.db, t) && !EndedOn(s, CAPPED))
    || exists f, content, before :: StoppedByCap(t, cut, s, f, content, before)
  }

  lemma EndKindIsSound(t: string, text: string, cut: seq<string>, s: Turn, w: World)
    requires EndKind(t, cut, s)
    ensures SoundUnlessCapped(t, text, s)
  {
    if Settled(s.db, t) && !EndedOn(s, CAPPED) {
      SettledNext(t, text, s.db, s.ran);
    } else {
      var f, content, before :| StoppedByCap(t, cut, s, f, content, before);
      CapEndIsSound(t, text, cut, f, content, before, w);
    }
  }

  lemma CapEndIsSound(t: string, text: string, cut: seq<string>, f: MS.Item, content: string, before: Turn, w: World)
    requires f.Final? && f.calls != [] && Waiting(before, t, cut, [])
    ensures SoundUnlessCapped(t, text, Emitted(Spoken(t, f, content, before), CAPPED))
  {
    assert f.calls[..0] == [];
    AbandonedTurnSettlesIff(w, t, false, f, content, 0, before, cut, text);
  }

  lemma AnsweredEnds(w: World, t: string, allow: bool, cap: real, f: MS.Item, content: string, s: Turn,
                     cut: seq<string>)
    requires f.Final? && Waiting(s, t, cut, []) && Answered(w, t, allow, cap, f, content, s).Over?
    ensures EndKind(t, cut, Answered(w, t, allow, cap, f, content, s).s)
  {
    if f.calls == [] {
      AnswerSettles(s.db, t, content, f.cost);
    } else {
      assert StoppedByCap(t, cut, Answered(w, t, allow, cap, f, content, s).s, f, content, s);
    }
  }

  lemma HeardEnds(w: World, t: string, allow: bool, cap: real, items: seq<MS.Item>, s: Turn, cut: seq<string>)
    requires Waiting(s, t, cut, []) && Heard(w, t, allow, cap, items, s).Over?
    ensures EndKind(t, cut, Heard(w, t, allow, cap, items, s).s)
  {
    if LastFinal(items).Some? && !Errored(LastFinal(items).value) {
      var f := LastFinal(items).value;
      AnsweredEnds(w, t, allow, cap, f, Content(f, items), s.(events := s.events + Tokens(items)), cut);
    }
  }

  lemma RoundEnds(w: World, t: string, allow: bool, cap: real, rounds: nat, r: nat, s: Turn, cut: seq<string>)
    requires Waiting(s, t, cut, []) && AllSound(s.sent, cut) && Round(w, t, allow, cap, rounds, r, s).Over?
    ensures EndKind(t, cut, Round(w, t, allow, cap, rounds, r, s).s)
  {
    NudgeKeepsWaiting(rounds, r, s, t, cut);
    if w.reply(r).Streams? {
      HeardEnds(w, t, allow, cap, MS.Stream(w.reply(r).script), Asked(Nudged(rounds, r, s)), cut);
    }
  }

  lemma LandingEnds(w: World, t: string, rounds: nat, s: Turn, cut: seq<string>)
    requires Waiting(s, t, cut, []) && AllSound(s.sent, cut)
    ensures EndKind(t, cut, Landing(w, t, rounds, s))
  {
    LandingKeepsPairing(w, t, rounds, s, cut);
  }

  lemma {:induction false} TurnEnds(w: World, t: string, allow: bool, cap: real, rounds: nat, r: nat, s: Turn,
                                    cut: seq<string>, s': Turn)
    requires r <= rounds && Waiting(s, t, cut, []) && AllSound(s.sent, cut)
    requires s' == TurnFrom(w, t, allow, cap, rounds, r, s)
    ensures EndKind(t, cut, s')
    decreases rounds - r
  {
    if r == rounds {
      LandingEnds(w, t, rounds, s, cut);
    } else {
      var h := OneRound(w, t, allow, cap, rounds, r, s);
      RoundKeepsPairing(w, t, allow, cap, rounds, r, s, cut);
      if h.Over? {
        RoundEnds(w, t, allow, cap, rounds, r, s, cut);
      } else {
        TurnEnds(w, t, allow, cap, rounds, r + 1, h.s, cut, s');
      }
    }
  }

  lemma OpenedWaits(t: string, text: string, db: seq<Row>, ran: seq<ToolRun>) returns (s0: Turn, cut: seq<string>)
    requires Settled(db, t)
    ensures s0 == Opened(t, text, db, ran) && Waiting(s0, t, cut, []) && AllSound(s0.sent, cut)
  {
    s0 := Opened(t, text, db, ran);
    AppendOwed(db, t, User(text), None, []);
    cut := CutHistoryIsAnswered(Of(s0.db, t));
    assert Ids([]) == [];
  }

  /**
   * After a turn on a settled thread, the thread is settled and its next request would be
   * fully answered if and only if the turn did not end on the mid-turn cost cap. That
   * request is sent once the cap is raised.
   */
  lemma UnansweredIffCapped(w: World, t: string, said: string, allow: bool, cap: real, rounds: nat,
                            db: seq<Row>, ran: seq<ToolRun>, text: string)
    requires Settled(db, t) && Cost(Of(db, t)) < cap
    ensures SoundUnlessCapped(t, text, RunTurn(w, Live, t, said, allow, cap, rounds, db, ran))
  {
    var s0, cut := OpenedWaits(t, said, db, ran);
    var s := TurnFrom(w, t, allow, cap, rounds, 0, s0);
    LiveTurn(w, t, said, allow, cap, rounds, db, ran, s0);
    TurnEnds(w, t, allow, cap, rounds, 0, s0, cut, s);
    EndKindIsSound(t, text, cut, s, w);
  }
}
