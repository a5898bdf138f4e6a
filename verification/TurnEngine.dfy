/**
 * The assistant as it runs: a store whose rows are appended and updated in place,
 * the tool loop over it, and the confirm endpoint. Each method is proved to do
 * what its function in TurnSpec says, so every result in TurnRuns holds of it.
 */
module TurnEngine {
  import opened Basics
  import opened Transcript
  import opened TurnSpec
  import MS = ModelStream
  import Text

  lemma {:induction false} TokensAppend(a: seq<MS.Item>, b: seq<MS.Item>)
    ensures Tokens(a + b) == Tokens(a) + Tokens(b)
  {
    if a == [] {
      assert a + b == b;
    } else {
      assert (a + b)[0] == a[0] && (a + b)[1..] == a[1..] + b;
      TokensAppend(a[1..], b);
    }
  }

  lemma ListenStep(items: seq<MS.Item>, i: nat)
    requires i < |items|
    ensures Tokens(items[..i + 1]) ==
            Tokens(items[..i]) + (if items[i].Shown? && items[i].text != "" then [Token(items[i].text)] else [])
    ensures MS.Texts(items[..i + 1]) == MS.Texts(items[..i]) + (if items[i].Shown? then [items[i].text] else [])
    ensures LastFinal(items[..i + 1]) == if items[i].Final? then Some(items[i]) else LastFinal(items[..i])
  {
    assert items[..i + 1] == items[..i] + [items[i]];
    TokensAppend(items[..i], [items[i]]);
    MS.TextsAppend(items[..i], [items[i]]);
    assert items[..i + 1][..i] == items[..i];
    assert Tokens([items[i]][1..]) == [] && MS.Texts([items[i]][1..]) == [];
  }

  lemma {:induction false} JoinKeepsNonEmpty(parts: seq<string>, text: string)
    ensures Text.Join(parts + [text]) == Text.Join(parts) + text
  {
    if parts == [] {
      assert [] + [text] == [text];
      assert Text.Join([text]) == text + Text.Join([]);
    } else {
      assert (parts + [text])[1..] == parts[1..] + [text];
      JoinKeepsNonEmpty(parts[1..], text);
    }
  }

  /** Consumes one invocation: tokens shown, text collected, last final kept. */
  method Listen(items: seq<MS.Item>) returns (tokens: seq<Event>, shown: string, result: Option<MS.Item>)
    ensures tokens == Tokens(items) && shown == Text.Join(MS.Texts(items)) && result == LastFinal(items)
  {
    tokens, shown, result := [], "", None;
    for i := 0 to |items|
      invariant tokens == Tokens(items[..i])
      invariant shown == Text.Join(MS.Texts(items[..i]))
      invariant result == LastFinal(items[..i])
    {
      ListenStep(items, i);
      assert Text.Join(MS.Texts(items[..i])) + "" == shown && MS.Texts(items[..i]) + [] == MS.Texts(items[..i]);
      assert tokens + [] == tokens;
      match items[i] {
        case Shown(text) =>
          JoinKeepsNonEmpty(MS.Texts(items[..i]), text);
          if text != "" {
            shown := shown + text;
            tokens := tokens + [Token(text)];
          }
        case Final(_, _, _, _) =>
          result := Some(items[i]);
      }
    }
    assert items[..|items|] == items;
  }

  class Store {
    var db: seq<Row>
    var ran: seq<ToolRun>

    /** Within every thread the rows are numbered 1, 2, 3, ... in insertion order. */
    ghost predicate Valid()
      reads this
    {
      forall t :: Numbered(Of(db, t))
    }

    constructor ()
      ensures Valid() && db == [] && ran == []
    {
      db, ran := [], [];
    }

    method AppendMessage(t: string, body: Body, cost: Option<real>) returns (id: nat)
      requires Valid()
      modifies this`db
      ensures Valid() && db == Appended(old(db), t, body, cost) && id == |old(db)|
    {
      ghost var grown := Appended(db, t, body, cost);
      forall u ensures Numbered(Of(grown, u)) {
        AppendKeepsNumbering(db, t, body, cost, u);
      }
      id := |db|;
      db := db + [Row(t, MaxNumber(Of(db, t)) + 1, body, cost)];
    }

    method SetMessageStatus(id: nat, status: Status)
      requires Valid() && id < |db| && db[id].body.Action?
      modifies this`db
      ensures Valid() && db == WithStatus(old(db), id, status)
    {
      ghost var marked := WithStatus(db, id, status);
      forall u ensures Numbered(Of(marked, u)) {
        StatusOnly(db, id, status, u);
      }
      db := db[id := db[id].(body := db[id].body.(status := status))];
    }

    ghost function Now(msgs: seq<Msg>, sent: seq<seq<Msg>>, events: seq<Event>): Turn
      reads this
    {
      Turn(db, ran, msgs, sent, events)
    }

    /** One call: a confirm card with a placeholder result, or the tool itself. */
    method Answer(w: World, t: string, allow: bool, c: Call) returns (result: Msg, events: seq<Event>)
      requires Valid()
      modifies this
      ensures Valid()
      ensures forall s: Turn :: s.db == old(db) && s.ran == old(ran) ==>
                AnswerCall(w, t, allow, c, s) == Now(s.msgs + [result], s.sent, s.events + events)
    {
      if allow && IsConfirm(c.name) {
        var summary := w.summary(c.name, c.input);
        var id := AppendMessage(t, Action(summary, c, Pending), None);
        var _ := AppendMessage(t, Tool(PLACEHOLDER, c), None);
        result := ToolMsg(PLACEHOLDER, c.id);
        events := [ActionProposed(id, c.name, c.input, summary)];
      } else {
        var output := w.tool(|ran|);
        ran := ran + [ToolRun(c.name, c.input, None)];
        var _ := AppendMessage(t, Tool(output, c), None);
        result := ToolMsg(output, c.id);
        var shown := [ToolCall(c.name, c.input), ToolResult(c.name, Prefix(output, RESULT_PREVIEW))];
        events := shown + Routed(w, c.name, output);
        ghost var e := events;
        assert forall a: seq<Event> :: a + shown + Routed(w, c.name, output) == a + e;
      }
    }

    method AnswerAll(w: World, t: string, allow: bool, calls: seq<Call>, msgs0: seq<Msg>, events0: seq<Event>,
                     ghost sent: seq<seq<Msg>>)
      returns (msgs: seq<Msg>, events: seq<Event>)
      requires Valid()
      modifies this
      ensures Valid()
      ensures Now(msgs, sent, events) == AnswerCalls(w, t, allow, calls, old(Now(msgs0, sent, events0)))
    {
      msgs, events := msgs0, events0;
      ghost var start := Now(msgs, sent, events);
      for i := 0 to |calls|
        invariant Valid()
        invariant AnswerCalls(w, t, allow, calls[i..], Now(msgs, sent, events)) ==
                AnswerCalls(w, t, allow, calls, start)
      {
        ghost var before := Now(msgs, sent, events);
        assert calls[i..][1..] == calls[i + 1..];
        var result, more := Answer(w, t, allow, calls[i]);
        msgs, events := msgs + [result], events + more;
        assert Now(msgs, sent, events) == AnswerCall(w, t, allow, calls[i], before);
      }
    }

    /** What came of the forced final answer: its text stored, or the round limit reported. */
    method LandAnswer(t: string, items: seq<MS.Item>, ghost msgs: seq<Msg>, ghost sent: seq<seq<Msg>>,
                      events: seq<Event>)
      returns (events': seq<Event>)
      requires Valid()
      modifies this
      ensures Valid()
      ensures Now(msgs, sent, events') == Land(t, items, old(Now(msgs, sent, events)))
    {
      var tokens, shown, result := Listen(items);
      events' := events + tokens;
      var text := "";
      if result.Some? && !Errored(result.value) {
        text := Text.Strip(if result.value.content != "" then result.value.content else shown);
      }
      if text != "" {
        var id := AppendMessage(t, Assistant(text, []), result.value.cost);
        events' := events' + [Done(id)];
      } else {
        events' := events' + [Error("max_rounds", "round limit")];
      }
    }

    /** The forced final answer once the rounds are used up. */
    method ForceFinal(w: World, t: string, rounds: nat, msgs: seq<Msg>, sent: seq<seq<Msg>>, events: seq<Event>)
      returns (sent': seq<seq<Msg>>, events': seq<Event>)
      requires Valid()
      modifies this
      ensures Valid()
      ensures var s := Landing(w, t, rounds, old(Now(msgs, sent, events)));
              db == s.db && ran == s.ran && sent' == s.sent && events' == s.events
    {
      var asked := msgs + [UserMsg(FORCED_FINAL)];
      match w.reply(rounds) {
        case Refused(message) =>
          sent', events' := sent, events + [Error("internal", message)];
        case Streams(script) =>
          sent' := sent + [asked];
          var items, _, _ := MS.InvokeStream(script);
          events' := LandAnswer(t, items, asked, sent', events);
      }
    }

    /** The model's answer: stored, then finished, capped, or its calls answered. */
    method Settle(w: World, t: string, allow: bool, cap: real, f: MS.Item, content: string, msgs0: seq<Msg>,
                  events0: seq<Event>, ghost sent: seq<seq<Msg>>)
      returns (over: bool, msgs: seq<Msg>, events: seq<Event>)
      requires Valid() && f.Final?
      modifies this
      ensures Valid()
      ensures var round := Answered(w, t, allow, cap, f, content, old(Now(msgs0, sent, events0)));
              over == round.Over? && round.s == Now(msgs, sent, events)
    {
      over, events := true, events0;
      var id := AppendMessage(t, Assistant(content, f.calls), f.cost);
      msgs := msgs0 + [AssistantMsg(content, f.calls)];
      if f.calls == [] {
        events := events + [Done(id)];
      } else if Cost(Of(db, t)) >= cap {
        events := events + [Error("cost_cap", "cost cap reached mid-turn")];
      } else {
        over := false;
        msgs, events := AnswerAll(w, t, allow, f.calls, msgs, events, sent);
      }
    }

    /** One invocation heard: an error, or an answer to deal with. */
    method Hear(w: World, t: string, allow: bool, cap: real, items: seq<MS.Item>, msgs0: seq<Msg>, events0: seq<Event>,
                ghost sent: seq<seq<Msg>>)
      returns (over: bool, msgs: seq<Msg>, events: seq<Event>)
      requires Valid()
      modifies this
      ensures Valid()
      ensures var round := Heard(w, t, allow, cap, items, old(Now(msgs0, sent, events0)));
              over == round.Over? && round.s == Now(msgs, sent, events)
    {
      msgs, over := msgs0, true;
      var tokens, shown, result := Listen(items);
      events := events0 + tokens;
      if result.None? {
        events := events + [Error("provider", "no response from model")];
      } else if Errored(result.value) {
        events := events + [Error("provider", result.value.error.value)];
      } else {
        var content := if result.value.content != "" then result.value.content else shown;
        over, msgs, events := Settle(w, t, allow, cap, result.value, content, msgs, events, sent);
      }
    }

    /** One round: ask, listen, then deal with the answer. */
    method DoRound(w: World, t: string, allow: bool, cap: real, rounds: nat, r: nat,
                   msgs0: seq<Msg>, sent0: seq<seq<Msg>>, events0: seq<Event>)
      returns (over: bool, msgs: seq<Msg>, sent: seq<seq<Msg>>, events: seq<Event>)
      requires Valid() && r < rounds
      modifies this
      ensures Valid()
      ensures var round := Round(w, t, allow, cap, rounds, r, old(Now(msgs0, sent0, events0)));
              over == round.Over? && round.s == Now(msgs, sent, events)
    {
      msgs, sent := msgs0, sent0;
      if r == rounds - WRAP_UP_ROUNDS_LEFT && rounds > WRAP_UP_ROUNDS_LEFT {
        msgs := msgs + [UserMsg(WRAP_UP_NUDGE)];
      }
      match w.reply(r) {
        case Refused(message) =>
          over, events := true, events0 + [Error("internal", message)];
        case Streams(script) =>
          sent := sent + [msgs];
          var items, _, _ := MS.InvokeStream(script);
          over, msgs, events := Hear(w, t, allow, cap, items, msgs, events0, sent);
      }
    }

    /** The tool loop and, when it runs out, the forced final answer. */
    method RunRounds(w: World, t: string, allow: bool, cap: real, rounds: nat, msgs0: seq<Msg>, events0: seq<Event>)
      returns (sent: seq<seq<Msg>>, events: seq<Event>)
      requires Valid()
      modifies this
      ensures Valid()
      ensures var s := TurnFrom(w, t, allow, cap, rounds, 0, old(Now(msgs0, [], events0)));
              db == s.db && ran == s.ran && sent == s.sent && events == s.events
    {
      var msgs := msgs0;
      sent, events := [], events0;
      ghost var all := TurnFrom(w, t, allow, cap, rounds, 0, Now(msgs, sent, events));
      var r := 0;
      while r < rounds
        invariant Valid() && 0 <= r <= rounds
        invariant TurnFrom(w, t, allow, cap, rounds, r, Now(msgs, sent, events)) == all
      {
        var over;
        over, msgs, sent, events := DoRound(w, t, allow, cap, rounds, r, msgs, sent, events);
        if over {
          return;
        }
        r := r + 1;
      }
      sent, events := ForceFinal(w, t, rounds, msgs, sent, events);
    }

    /** A whole turn. */
    method DoTurn(w: World, thread: Thread, t: string, text: string, allow: bool, cap: real, rounds: nat)
      returns (sent: seq<seq<Msg>>, events: seq<Event>)
      requires Valid()
      modifies this
      ensures Valid()
      ensures var s := RunTurn(w, thread, t, text, allow, cap, rounds, old(db), old(ran));
              db == s.db && ran == s.ran && sent == s.sent && events == s.events
    {
      sent, events := [], [];
      if thread.Missing? {
        events := [Error("no_thread", "thread not found")];
      } else if thread.Archived? {
        events := [Error("archived", "thread is archived")];
      } else if Cost(Of(db, t)) >= cap {
        events := [Error("cost_cap", "thread cost reached the cap")];
      } else {
        var _ := AppendMessage(t, User(text), None);
        sent, events := RunRounds(w, t, allow, cap, rounds, HistoryToMsgs(Recent(Of(db, t))), [UserPersisted]);
      }
    }

    /** The operator's decision on a proposed action; `output` is what the tool would return. */
    method DoConfirm(output: string, thread: Thread, t: string, id: nat, approve: bool) returns (reply: Reply)
      requires Valid()
      modifies this
      ensures Valid()
      ensures Confirmed(db, ran, reply) == Confirm(output, thread, t, id, approve, old(db), old(ran))
    {
      if thread.Missing? {
        return Reply(false, "error", "thread not found");
      }
      if id >= |db| || !db[id].body.Action? || db[id].thread != t {
        return Reply(false, "error", "action not found");
      }
      var action := db[id].body;
      if action.status != Pending {
        return Reply(false, StatusText(action.status), "action already " + StatusText(action.status));
      }
      var name := action.call.name;
      var summary := if action.text != "" then action.text else name;
      if !approve {
        SetMessageStatus(id, Rejected);
        var _ := AppendMessage(t, Assistant(RejectNote(summary), []), None);
        return Reply(true, "rejected", RejectNote(summary));
      }
      if !IsConfirm(name) {
        SetMessageStatus(id, Failed);
        return Reply(false, "failed", "'" + name + "' is not a confirmable action");
      }
      ran := ran + [ToolRun(name, action.call.input, Some(id))];
      var status := if LooksFailed(output) then Failed else Executed;
      SetMessageStatus(id, status);
      var _ := AppendMessage(t, Assistant(ResultNote(summary, output), []), None);
      reply := Reply(status == Executed, StatusText(status), summary);
    }
  }
}
