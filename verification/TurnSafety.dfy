/**
 * What every turn, and every sequence of turns and confirmations, keeps:
 * call/result pairing, one closing event, the round bound, and confirm gating.
 */
module TurnSafety {
  import opened Basics
  import opened Transcript
  import opened TurnSpec
  import MS = ModelStream

  // ---- pairing ----

  /** `calls` of thread `t` are waiting for their results, in the rows and in the request alike. */
  ghost predicate Waiting(s: Turn, t: string, cut: seq<string>, calls: seq<Call>) {
    Owed(Of(s.db, t), []) == Some(calls) && Await(s.msgs, cut) == Some(Ids(calls))
  }

  lemma IdsTail(calls: seq<Call>)
    requires calls != []
    ensures Ids(calls)[1..] == Ids(calls[1..]) && Ids(calls) != [] && Ids(calls)[0] == calls[0].id
  {
  }

  lemma ProposeSettlesOne(w: World, t: string, s: Turn, cut: seq<string>, calls: seq<Call>)
    requires calls != [] && Waiting(s, t, cut, calls)
    ensures var s' := Propose(w, t, calls[0], s);
            Waiting(s', t, cut, calls[1..]) && Cost(Of(s'.db, t)) == Cost(Of(s.db, t))
  {
    CardOwed(s.db, t, w.summary(calls[0].name, calls[0].input), calls);
    ResultAwaited(s.msgs, PLACEHOLDER, cut, calls);
  }

  lemma ResultAwaited(ms: seq<Msg>, output: string, cut: seq<string>, calls: seq<Call>)
    requires calls != [] && Await(ms, cut) == Some(Ids(calls))
    ensures Await(ms + [ToolMsg(output, calls[0].id)], cut) == Some(Ids(calls[1..]))
  {
    IdsTail(calls);
    AwaitSnoc(ms, ToolMsg(output, calls[0].id), cut);
  }

  /** The rows of a confirm card: the action, which settles nothing, and the placeholder result. */
  lemma CardOwed(db: seq<Row>, t: string, summary: string, calls: seq<Call>)
    requires calls != [] && Owed(Of(db, t), []) == Some(calls)
    ensures var proposed := Appended(db, t, Action(summary, calls[0], Pending), None);
            var db' := Appended(proposed, t, Tool(PLACEHOLDER, calls[0]), None);
            Owed(Of(db', t), []) == Some(calls[1..]) && Cost(Of(db', t)) == Cost(Of(db, t))
  {
    var proposed := Appended(db, t, Action(summary, calls[0], Pending), None);
    AppendOwed(db, t, Action(summary, calls[0], Pending), None, []);
    assert Owed(Of(proposed, t), []) == Some(calls);
    ResultOwed(proposed, t, PLACEHOLDER, calls);
  }

  lemma ResultOwed(db: seq<Row>, t: string, output: string, calls: seq<Call>)
    requires calls != [] && Owed(Of(db, t), []) == Some(calls)
    ensures var db' := Appended(db, t, Tool(output, calls[0]), None);
            Owed(Of(db', t), []) == Some(calls[1..]) && Cost(Of(db', t)) == Cost(Of(db, t))
  {
    AppendOwed(db, t, Tool(output, calls[0]), None, []);
  }

  lemma ExecuteSettlesOne(w: World, t: string, s: Turn, cut: seq<string>, calls: seq<Call>)
    requires calls != [] && Waiting(s, t, cut, calls)
    ensures var s' := Execute(w, t, calls[0], s);
            Waiting(s', t, cut, calls[1..]) && Cost(Of(s'.db, t)) == Cost(Of(s.db, t))
  {
    ResultOwed(s.db, t, w.tool(|s.ran|), calls);
    ResultAwaited(s.msgs, w.tool(|s.ran|), cut, calls);
  }

  lemma AnswerCallSettlesOne(w: World, t: string, allow: bool, s: Turn, cut: seq<string>, calls: seq<Call>)
    requires calls != [] && Waiting(s, t, cut, calls)
    ensures var s' := AnswerCall(w, t, allow, calls[0], s);
            && Waiting(s', t, cut, calls[1..]) && s'.sent == s.sent
            && Cost(Of(s'.db, t)) == Cost(Of(s.db, t))
  {
    if allow && IsConfirm(calls[0].name) {
      ProposeSettlesOne(w, t, s, cut, calls);
    } else {
      ExecuteSettlesOne(w, t, s, cut, calls);
    }
  }

  lemma {:induction false} AnswerCallsSettleAll(w: World, t: string, allow: bool, calls: seq<Call>, s: Turn,
                                                cut: seq<string>)
    requires Waiting(s, t, cut, calls)
    ensures var s' := AnswerCalls(w, t, allow, calls, s);
            && Waiting(s', t, cut, []) && s'.sent == s.sent
            && Cost(Of(s'.db, t)) == Cost(Of(s.db, t))
    decreases |calls|
  {
    if calls != [] {
      AnswerCallSettlesOne(w, t, allow, s, cut, calls);
      AnswerCallsSettleAll(w, t, allow, calls[1..], AnswerCall(w, t, allow, calls[0], s), cut);
    }
  }

  /** A request whose calls are all answered, up to results of calls lost to the cut. */
  ghost predicate Sound(ms: seq<Msg>, cut: seq<string>) {
    Await(ms, cut) == Some([])
  }

  ghost predicate AllSound(sent: seq<seq<Msg>>, cut: seq<string>) {
    forall i :: 0 <= i < |sent| ==> Sound(sent[i], cut)
  }

  /** The stored thread is settled, or it has run into its cost cap. */
  ghost predicate SettledOrCapped(db: seq<Row>, t: string, cap: real) {
    Settled(db, t) || Cost(Of(db, t)) >= cap
  }

  lemma NudgeKeepsWaiting(rounds: nat, r: nat, s: Turn, t: string, cut: seq<string>)
    requires Waiting(s, t, cut, []) && AllSound(s.sent, cut)
    ensures var s' := Nudged(rounds, r, s); Waiting(s', t, cut, []) && s'.sent == s.sent
  {
    AwaitSnoc(s.msgs, UserMsg(WRAP_UP_NUDGE), cut);
    assert Ids([]) == [];
  }

  lemma AskedIsSound(s: Turn, t: string, cut: seq<string>)
    requires Waiting(s, t, cut, []) && AllSound(s.sent, cut)
    ensures Waiting(Asked(s), t, cut, []) && AllSound(Asked(s).sent, cut)
  {
    assert Ids([]) == [];
    SoundSnoc(s.sent, s.msgs, cut);
  }

  lemma SpokenWaits(t: string, f: MS.Item, content: string, s: Turn, cut: seq<string>)
    requires f.Final? && Waiting(s, t, cut, [])
    ensures var s' := Spoken(t, f, content, s);
            Waiting(s', t, cut, f.calls) && Cost(Of(s'.db, t)) == Cost(Of(s.db, t)) + f.cost.GetOr(0.0)
  {
    AppendOwed(s.db, t, Assistant(content, f.calls), f.cost, []);
    AwaitSnoc(s.msgs, AssistantMsg(content, f.calls), cut);
    assert Ids([]) == [];
  }

  ghost predicate KeptPairing(h: RoundResult, t: string, cap: real, cut: seq<string>) {
    AllSound(h.s.sent, cut) && (if h.Over? then SettledOrCapped(h.s.db, t, cap) else Waiting(h.s, t, cut, []))
  }

  lemma GoOnKeepsPairing(w: World, t: string, allow: bool, cap: real, calls: seq<Call>, id: nat, s: Turn,
                         cut: seq<string>)
    requires Waiting(s, t, cut, calls) && AllSound(s.sent, cut)
    ensures KeptPairing(GoOn(w, t, allow, cap, calls, id, s), t, cap, cut)
  {
    AnswerCallsSettleAll(w, t, allow, calls, s, cut);
  }

  lemma AnsweredKeepsPairing(w: World, t: string, allow: bool, cap: real, f: MS.Item, content: string, s: Turn,
                             cut: seq<string>)
    requires f.Final? && Waiting(s, t, cut, []) && AllSound(s.sent, cut)
    ensures KeptPairing(Answered(w, t, allow, cap, f, content, s), t, cap, cut)
  {
    SpokenWaits(t, f, content, s, cut);
    GoOnKeepsPairing(w, t, allow, cap, f.calls, |s.db|, Spoken(t, f, content, s), cut);
  }

  lemma RoundKeepsPairing(w: World, t: string, allow: bool, cap: real, rounds: nat, r: nat, s: Turn, cut: seq<string>)
    requires Waiting(s, t, cut, []) && AllSound(s.sent, cut)
    ensures KeptPairing(Round(w, t, allow, cap, rounds, r, s), t, cap, cut)
  {
    NudgeKeepsWaiting(rounds, r, s, t, cut);
    if w.reply(r).Streams? {
      AskedIsSound(Nudged(rounds, r, s), t, cut);
      HeardKeepsPairing(w, t, allow, cap, MS.Stream(w.reply(r).script), Asked(Nudged(rounds, r, s)), cut);
    }
  }

  lemma HeardKeepsPairing(w: World, t: string, allow: bool, cap: real, items: seq<MS.Item>, s: Turn, cut: seq<string>)
    requires Waiting(s, t, cut, []) && AllSound(s.sent, cut)
    ensures KeptPairing(Heard(w, t, allow, cap, items, s), t, cap, cut)
  {
    var s1 := s.(events := s.events + Tokens(items));
    if LastFinal(items).Some? && !Errored(LastFinal(items).value) {
      AnsweredKeepsPairing(w, t, allow, cap, LastFinal(items).value, Content(LastFinal(items).value, items), s1, cut);
    }
  }

  lemma SoundSnoc(sent: seq<seq<Msg>>, ms: seq<Msg>, cut: seq<string>)
    requires AllSound(sent, cut) && Sound(ms, cut)
    ensures AllSound(sent + [ms], cut)
  {
  }

  lemma LandSettles(t: string, items: seq<MS.Item>, s: Turn)
    requires Settled(s.db, t)
    ensures Settled(Land(t, items, s).db, t) && Land(t, items, s).sent == s.sent
  {
    if LandText(items) != "" { AnswerSettles(s.db, t, LandText(items), LandCost(items)); }
  }

  /** An answer without calls leaves a settled thread settled. */
  lemma AnswerSettles(db: seq<Row>, t: string, text: string, cost: Option<real>)
    requires Settled(db, t)
    ensures Settled(Appended(db, t, Assistant(text, []), cost), t)
  {
    AppendOwed(db, t, Assistant(text, []), cost, []);
  }

  lemma LandingKeepsPairing(w: World, t: string, rounds: nat, s: Turn, cut: seq<string>)
    requires Waiting(s, t, cut, []) && AllSound(s.sent, cut)
    ensures var s' := Landing(w, t, rounds, s); Settled(s'.db, t) && AllSound(s'.sent, cut)
  {
    assert Ids([]) == [];
    AwaitSnoc(s.msgs, UserMsg(FORCED_FINAL), cut);
    if w.reply(rounds).Streams? {
      AskedIsSound(Forced(s), t, cut);
      LandSettles(t, MS.Stream(w.reply(rounds).script), Asked(Forced(s)));
    }
  }

  lemma {:induction false} TurnFromKeepsPairing(
    w: World, t: string, allow: bool, cap: real, rounds: nat, r: nat, s: Turn, cut: seq<string>)
    requires r <= rounds && Waiting(s, t, cut, []) && AllSound(s.sent, cut)
    ensures var s' := TurnFrom(w, t, allow, cap, rounds, r, s);
            SettledOrCapped(s'.db, t, cap) && AllSound(s'.sent, cut)
    decreases rounds - r
  {
    if r == rounds {
      LandingKeepsPairing(w, t, rounds, s, cut);
    } else {
      RoundKeepsPairing(w, t, allow, cap, rounds, r, s, cut);
      match Round(w, t, allow, cap, rounds, r, s)
      case Over(_) =>
      case Again(s') => TurnFromKeepsPairing(w, t, allow, cap, rounds, r + 1, s', cut);
    }
  }

  /**
   * A turn leaves the thread settled or capped, and every request it sends to the
   * model has all its calls answered, in order, whatever the model and tools do.
   */
  lemma TurnKeepsPairing(w: World, thread: Thread, t: string, text: string, allow: bool, cap: real, rounds: nat,
                         db: seq<Row>, ran: seq<ToolRun>) returns (cut: seq<string>)
    requires SettledOrCapped(db, t, cap)
    ensures var s := RunTurn(w, thread, t, text, allow, cap, rounds, db, ran);
            && SettledOrCapped(s.db, t, cap) && AllSound(s.sent, cut)
            && forall i :: 0 <= i < |s.sent| ==> AllAnswered(s.sent[i])
  {
    cut := [];
    if thread.Live? && Cost(Of(db, t)) < cap {
      var s0 := Opened(t, text, db, ran);
      AppendOwed(db, t, User(text), None, []);
      cut := CutHistoryIsAnswered(Of(s0.db, t));
      assert Ids([]) == [];
      TurnFromKeepsPairing(w, t, allow, cap, rounds, 0, s0, cut);
    }
    var s := RunTurn(w, thread, t, text, allow, cap, rounds, db, ran);
    forall i | 0 <= i < |s.sent| ensures AllAnswered(s.sent[i]) {
      assert Sound(s.sent[i], cut);
      PairedMeansAnswered(s.sent[i], cut);
    }
  }

  // ---- one closing event, bounded rounds ----

  predicate Closing(e: Event) {
    e.Done? || e.Error?
  }

  ghost predicate Quiet(events: seq<Event>) {
    forall e :: e in events ==> !Closing(e)
  }

  /** Exactly one closing event, and it is the last one. */
  ghost predicate ClosesOnce(events: seq<Event>) {
    events != [] && Closing(events[|events| - 1]) && Quiet(events[..|events| - 1])
  }

  lemma {:induction false} TokensAreQuiet(items: seq<MS.Item>)
    ensures Quiet(Tokens(items))
  {
    if items != [] { TokensAreQuiet(items[1..]); }
  }

  lemma {:induction false} AnswerCallsAreQuiet(w: World, t: string, allow: bool, calls: seq<Call>, s: Turn)
    requires Quiet(s.events)
    ensures var s' := AnswerCalls(w, t, allow, calls, s); Quiet(s'.events) && |s'.sent| == |s.sent|
    decreases |calls|
  {
    if calls != [] {
      AnswerCallsAreQuiet(w, t, allow, calls[1..], AnswerCall(w, t, allow, calls[0], s));
    }
  }

  ghost predicate ClosedOrQuiet(h: RoundResult, sent: nat) {
    |h.s.sent| == sent && (if h.Over? then ClosesOnce(h.s.events) else Quiet(h.s.events))
  }

  lemma GoOnIsQuiet(w: World, t: string, allow: bool, cap: real, calls: seq<Call>, id: nat, s: Turn)
    requires Quiet(s.events)
    ensures ClosedOrQuiet(GoOn(w, t, allow, cap, calls, id, s), |s.sent|)
  {
    CloseQuiet(s.events, Done(id));
    CloseQuiet(s.events, Error("cost_cap", "cost cap reached mid-turn"));
    AnswerCallsAreQuiet(w, t, allow, calls, s);
  }

  lemma HeardIsQuiet(w: World, t: string, allow: bool, cap: real, items: seq<MS.Item>, s: Turn)
    requires Quiet(s.events)
    ensures ClosedOrQuiet(Heard(w, t, allow, cap, items, s), |s.sent|)
  {
    TokensAreQuiet(items);
    var s1 := s.(events := s.events + Tokens(items));
    match LastFinal(items)
    case None => CloseQuiet(s1.events, Error("provider", "no response from model"));
    case Some(f) =>
      if Errored(f) {
        CloseQuiet(s1.events, Error("provider", f.error.value));
      } else {
        GoOnIsQuiet(w, t, allow, cap, f.calls, |s1.db|, Spoken(t, f, Content(f, items), s1));
      }
  }

  lemma LandClosesOnce(t: string, items: seq<MS.Item>, s: Turn)
    requires Quiet(s.events)
    ensures var s' := Land(t, items, s); ClosesOnce(s'.events) && s'.sent == s.sent
  {
    TokensAreQuiet(items);
    var closing := if LandText(items) == "" then Error("max_rounds", "round limit") else Done(|s.db|);
    CloseQuiet(s.events + Tokens(items), closing);
    assert Land(t, items, s).events == s.events + Tokens(items) + [closing];
  }

  lemma LandingClosesOnce(w: World, t: string, rounds: nat, s: Turn)
    requires Quiet(s.events)
    ensures var s' := Landing(w, t, rounds, s); ClosesOnce(s'.events) && |s'.sent| <= |s.sent| + 1
  {
    match w.reply(rounds)
    case Streams(script) => LandClosesOnce(t, MS.Stream(script), Asked(Forced(s)));
    case Refused(message) => CloseQuiet(s.events, Error("internal", message));
  }

  lemma RoundIsQuiet(w: World, t: string, allow: bool, cap: real, rounds: nat, r: nat, s: Turn)
    requires Quiet(s.events)
    ensures var h := Round(w, t, allow, cap, rounds, r, s);
            |h.s.sent| <= |s.sent| + 1 && (if h.Over? then ClosesOnce(h.s.events) else Quiet(h.s.events))
  {
    match w.reply(r)
    case Streams(script) => HeardIsQuiet(w, t, allow, cap, MS.Stream(script), Asked(Nudged(rounds, r, s)));
    case Refused(message) => CloseQuiet(s.events, Error("internal", message));
  }

  lemma CloseQuiet(events: seq<Event>, e: Event)
    requires Quiet(events) && Closing(e)
    ensures ClosesOnce(events + [e])
  {
    assert (events + [e])[..|events|] == events;
  }

  /** One turn of the tool loop. */
  lemma OneRound(w: World, t: string, allow: bool, cap: real, rounds: nat, r: nat, s: Turn) returns (h: RoundResult)
    requires r < rounds
    ensures h == Round(w, t, allow, cap, rounds, r, s)
    ensures TurnFrom(w, t, allow, cap, rounds, r, s) ==
            if h.Over? then h.s else TurnFrom(w, t, allow, cap, rounds, r + 1, h.s)
  {
    h := Round(w, t, allow, cap, rounds, r, s);
  }

  lemma {:induction false} TurnFromClosesOnce(
    w: World, t: string, allow: bool, cap: real, rounds: nat, r: nat, s: Turn, s': Turn)
    requires r <= rounds && Quiet(s.events) && |s.sent| <= r && s' == TurnFrom(w, t, allow, cap, rounds, r, s)
    ensures ClosedWithin(s', rounds)
    decreases rounds - r
  {
    if r == rounds {
      LandingClosesOnce(w, t, rounds, s);
    } else {
      var h := QuietRound(w, t, allow, cap, rounds, r, s);
      if h.Again? { TurnFromClosesOnce(w, t, allow, cap, rounds, r + 1, h.s, s'); }
    }
  }

  lemma QuietRound(w: World, t: string, allow: bool, cap: real, rounds: nat, r: nat, s: Turn) returns (h: RoundResult)
    requires r < rounds && Quiet(s.events) && |s.sent| <= r
    ensures if h.Over? then ClosedWithin(h.s, rounds) else Quiet(h.s.events) && |h.s.sent| <= r + 1
    ensures TurnFrom(w, t, allow, cap, rounds, r, s) ==
            if h.Over? then h.s else TurnFrom(w, t, allow, cap, rounds, r + 1, h.s)
  {
    h := OneRound(w, t, allow, cap, rounds, r, s);
    RoundIsQuiet(w, t, allow, cap, rounds, r, s);
  }

  /** Closed once, after at most `rounds + 1` requests. */
  ghost predicate ClosedWithin(s: Turn, rounds: nat) {
    ClosesOnce(s.events) && |s.sent| <= rounds + 1
  }

  lemma LiveTurn(w: World, t: string, text: string, allow: bool, cap: real, rounds: nat, db: seq<Row>,
                 ran: seq<ToolRun>, s0: Turn)
    requires Cost(Of(db, t)) < cap && s0 == Opened(t, text, db, ran)
    ensures RunTurn(w, Live, t, text, allow, cap, rounds, db, ran) == TurnFrom(w, t, allow, cap, rounds, 0, s0)
  {
  }

  /** Every turn ends on its one `done` or `error` event after at most `rounds + 1` model invocations. */
  lemma TurnClosesOnce(w: World, thread: Thread, t: string, text: string, allow: bool, cap: real, rounds: nat,
                       db: seq<Row>, ran: seq<ToolRun>)
    ensures var s := RunTurn(w, thread, t, text, allow, cap, rounds, db, ran);
            ClosesOnce(s.events) && |s.sent| <= rounds + 1
  {
    if thread.Live? && Cost(Of(db, t)) < cap {
      var s0 := OpenedIsQuiet(t, text, db, ran);
      LiveTurn(w, t, text, allow, cap, rounds, db, ran, s0);
      TurnFromClosesOnce(w, t, allow, cap, rounds, 0, s0, TurnFrom(w, t, allow, cap, rounds, 0, s0));
    } else {
      RefusedClosesOnce(w, thread, t, text, allow, cap, rounds, db, ran);
    }
  }

  lemma OpenedIsQuiet(t: string, text: string, db: seq<Row>, ran: seq<ToolRun>) returns (s0: Turn)
    ensures s0 == Opened(t, text, db, ran) && Quiet(s0.events) && s0.sent == []
  {
    s0 := Opened(t, text, db, ran);
  }

  lemma RefusedClosesOnce(w: World, thread: Thread, t: string, text: string, allow: bool, cap: real, rounds: nat,
                          db: seq<Row>, ran: seq<ToolRun>)
    requires !thread.Live? || Cost(Of(db, t)) >= cap
    ensures var s := RunTurn(w, thread, t, text, allow, cap, rounds, db, ran); ClosesOnce(s.events) && s.sent == []
  {
  }

  /**
   * Wherever inside the turn an exception escapes, the events emitted so far and the
   * handler's `internal` close once too.
   */
  lemma RaisedAnywhereClosesOnce(w: World, thread: Thread, t: string, text: string, allow: bool, cap: real, rounds: nat,
                                 db: seq<Row>, ran: seq<ToolRun>, n: nat, message: string)
    requires n < |RunTurn(w, thread, t, text, allow, cap, rounds, db, ran).events|
    ensures var events := RunTurn(w, thread, t, text, allow, cap, rounds, db, ran).events;
            ClosesOnce(events[..n] + [Error("internal", message)])
  {
    TurnClosesOnce(w, thread, t, text, allow, cap, rounds, db, ran);
    PrefixIsQuiet(RunTurn(w, thread, t, text, allow, cap, rounds, db, ran).events, n);
    CloseQuiet(RunTurn(w, thread, t, text, allow, cap, rounds, db, ran).events[..n], Error("internal", message));
  }

  lemma PrefixIsQuiet(events: seq<Event>, n: nat)
    requires ClosesOnce(events) && n < |events|
    ensures Quiet(events[..n])
  {
    forall e | e in events[..n] ensures !Closing(e) {
      var i :| 0 <= i < n && events[..n][i] == e;
      assert events[..|events| - 1][i] == e;
    }
  }
}
