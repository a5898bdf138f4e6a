/**
 * One assistant turn and one confirmation as functions of the stored rows and of
 * an arbitrary world: what the provider streams in each round, what every tool
 * returns (forven/assistant_session.py, run_turn and confirm_action).
 */
module TurnSpec {
  import opened Basics
  import opened Transcript
  import Text
  import MS = ModelStream

  /**
   * One invocation: a provider to stream from, or an exception before the first attempt (a missing
   * credential, say).
   */
  datatype Invocation = Streams(script: MS.Script) | Refused(message: string)

  datatype World = World(
    reply: nat -> Invocation,                   // round -> what the provider would do
    tool: nat -> string,                        // n-th tool run -> its output (an exception is an output too)
    route: string -> Option<string>,            // tool output -> validated route
    summary: (string, string) -> string)        // (tool name, input) -> confirm-card text

  datatype ToolRun = ToolRun(name: string, input: string, approval: Option<nat>)

  datatype Event =
    | UserPersisted
    | Token(text: string)
    | ToolCall(name: string, input: string)
    | ToolResult(name: string, output: string)
    | ActionProposed(id: nat, name: string, input: string, summary: string)
    | Navigate(route: string)
    | Done(id: nat)
    | Error(code: string, message: string)

  /** Everything a turn changes: rows, tool runs, model messages, requests sent, events emitted. */
  datatype Turn = Turn(
    db: seq<Row>, ran: seq<ToolRun>, msgs: seq<Msg>, sent: seq<seq<Msg>>, events: seq<Event>)

  datatype Thread = Missing | Archived | Live

  const CONFIRM_TOOLS: set<string> :=
    {"promote_strategy", "assign_agent_task", "assistant_register_strategy_file"}
  const WRAP_UP_ROUNDS_LEFT: nat := 2
  const RESULT_PREVIEW: nat := 1500
  const NOTE_LIMIT: nat := 2000

  // Wording abbreviated: only who says it matters here.
  const PLACEHOLDER: string := "PENDING_CONFIRMATION"
  const WRAP_UP_NUDGE: string := "wrap up"
  const FORCED_FINAL: string := "tool-round limit reached"

  predicate IsConfirm(name: string) {
    name in CONFIRM_TOOLS
  }

  /** The operator-tunable round cap, clamped to 2..40 (0 and unset mean 12). */
  function RoundsCap(raw: int): (cap: nat)
    ensures 2 <= cap <= 40
  {
    if raw == 0 then 12 else Max(2, Min(raw, 40))
  }

  function Prefix(s: string, n: nat): string {
    if |s| <= n then s else s[..n]
  }

  // ---- the events of one invocation ----

  function Tokens(items: seq<MS.Item>): seq<Event> {
    if items == [] then []
    else (if items[0].Shown? && items[0].text != "" then [Token(items[0].text)] else []) + Tokens(items[1..])
  }

  /** The last final wins, as the loop overwrites `result`. */
  function LastFinal(items: seq<MS.Item>): (f: Option<MS.Item>)
    ensures f.Some? ==> f.value.Final? && f.value in items
  {
    if items == [] then None
    else if items[|items| - 1].Final? then Some(items[|items| - 1])
    else LastFinal(items[..|items| - 1])
  }

  /** `result.get("error")` is truthy: an exception whose text is empty does not count. */
  predicate Errored(f: MS.Item)
    requires f.Final?
  {
    f.error.Some? && f.error.value != ""
  }

  function Content(f: MS.Item, items: seq<MS.Item>): string
    requires f.Final?
  {
    if f.content != "" then f.content else Text.Join(MS.Texts(items))
  }

  // ---- answering the calls of one round ----

  function Emitted(s: Turn, e: Event): Turn {
    s.(events := s.events + [e])
  }

  function Propose(w: World, t: string, c: Call, s: Turn): Turn {
    var summary := w.summary(c.name, c.input);
    var proposed := Appended(s.db, t, Action(summary, c, Pending), None);
    s.(db := Appended(proposed, t, Tool(PLACEHOLDER, c), None),
       msgs := s.msgs + [ToolMsg(PLACEHOLDER, c.id)],
       events := s.events + [ActionProposed(|s.db|, c.name, c.input, summary)])
  }

  function Routed(w: World, name: string, output: string): seq<Event> {
    if name == "open_app_page" && w.route(output).Some? && w.route(output).value != ""
    then [Navigate(w.route(output).value)] else []
  }

  function Execute(w: World, t: string, c: Call, s: Turn): Turn {
    var output := w.tool(|s.ran|);
    s.(db := Appended(s.db, t, Tool(output, c), None),
       ran := s.ran + [ToolRun(c.name, c.input, None)],
       msgs := s.msgs + [ToolMsg(output, c.id)],
       events := s.events + [ToolCall(c.name, c.input), ToolResult(c.name, Prefix(output, RESULT_PREVIEW))]
                 + Routed(w, c.name, output))
  }

  function AnswerCall(w: World, t: string, allow: bool, c: Call, s: Turn): Turn {
    if allow && IsConfirm(c.name) then Propose(w, t, c, s) else Execute(w, t, c, s)
  }

  function AnswerCalls(w: World, t: string, allow: bool, calls: seq<Call>, s: Turn): Turn {
    if calls == [] then s else AnswerCalls(w, t, allow, calls[1..], AnswerCall(w, t, allow, calls[0], s))
  }

  // ---- rounds ----

  /** The wrap-up nudge, when it is due. */
  function Nudged(rounds: nat, r: nat, s: Turn): Turn {
    if r == rounds - WRAP_UP_ROUNDS_LEFT && rounds > WRAP_UP_ROUNDS_LEFT
    then s.(msgs := s.msgs + [UserMsg(WRAP_UP_NUDGE)]) else s
  }

  /** The request leaves. */
  function Asked(s: Turn): Turn {
    s.(sent := s.sent + [s.msgs])
  }

  /** An exception inside the turn: the outer handler reports it and the turn is over. */
  function Raised(s: Turn, message: string): Turn {
    Emitted(s, Error("internal", message))
  }

  function Spoken(t: string, f: MS.Item, content: string, s: Turn): Turn
    requires f.Final?
  {
    s.(db := Appended(s.db, t, Assistant(content, f.calls), f.cost),
       msgs := s.msgs + [AssistantMsg(content, f.calls)])
  }

  datatype RoundResult = Over(s: Turn) | Again(s: Turn)

  /** After the answer is stored as row `id`: finished, capped, or its calls answered. */
  function GoOn(w: World, t: string, allow: bool, cap: real, calls: seq<Call>, id: nat, s: Turn): RoundResult {
    if calls == [] then Over(Emitted(s, Done(id)))
    else if Cost(Of(s.db, t)) >= cap then Over(Emitted(s, Error("cost_cap", "cost cap reached mid-turn")))
    else Again(AnswerCalls(w, t, allow, calls, s))
  }

  function Answered(w: World, t: string, allow: bool, cap: real, f: MS.Item, content: string, s: Turn): RoundResult
    requires f.Final?
  {
    GoOn(w, t, allow, cap, f.calls, |s.db|, Spoken(t, f, content, s))
  }

  function Heard(w: World, t: string, allow: bool, cap: real, items: seq<MS.Item>, s0: Turn): RoundResult {
    var s := s0.(events := s0.events + Tokens(items));
    match LastFinal(items)
    case None => Over(Emitted(s, Error("provider", "no response from model")))
    case Some(f) =>
      if Errored(f) then Over(Emitted(s, Error("provider", f.error.value)))
      else Answered(w, t, allow, cap, f, Content(f, items), s)
  }

  function Round(w: World, t: string, allow: bool, cap: real, rounds: nat, r: nat, s: Turn): RoundResult {
    match w.reply(r)
    case Streams(script) => Heard(w, t, allow, cap, MS.Stream(script), Asked(Nudged(rounds, r, s)))
    case Refused(message) => Over(Raised(Nudged(rounds, r, s), message))
  }

  function LandText(items: seq<MS.Item>): string {
    match LastFinal(items)
    case None => ""
    case Some(f) => if Errored(f) then "" else Text.Strip(Content(f, items))
  }

  function LandCost(items: seq<MS.Item>): Option<real> {
    match LastFinal(items) case None => None case Some(f) => f.cost
  }

  function Forced(s: Turn): Turn {
    s.(msgs := s.msgs + [UserMsg(FORCED_FINAL)])
  }

  /** The forced final answer, whose tool calls are ignored. */
  function Land(t: string, items: seq<MS.Item>, s0: Turn): Turn {
    var s := s0.(events := s0.events + Tokens(items));
    if LandText(items) == "" then Emitted(s, Error("max_rounds", "round limit"))
    else Emitted(s.(db := Appended(s.db, t, Assistant(LandText(items), []), LandCost(items))), Done(|s.db|))
  }

  /** Out of rounds: the forced final answer is asked for. */
  function Landing(w: World, t: string, rounds: nat, s: Turn): Turn {
    match w.reply(rounds)
    case Streams(script) => Land(t, MS.Stream(script), Asked(Forced(s)))
    case Refused(message) => Raised(Forced(s), message)
  }

  function TurnFrom(w: World, t: string, allow: bool, cap: real, rounds: nat, r: nat, s: Turn): Turn
    requires r <= rounds
    decreases rounds - r
  {
    if r == rounds then Landing(w, t, rounds, s)
    else
      match Round(w, t, allow, cap, rounds, r, s)
      case Over(s') => s'
      case Again(s') => TurnFrom(w, t, allow, cap, rounds, r + 1, s')
  }

  function Opened(t: string, text: string, db: seq<Row>, ran: seq<ToolRun>): Turn {
    var db' := Appended(db, t, User(text), None);
    Turn(db', ran, HistoryToMsgs(Recent(Of(db', t))), [], [UserPersisted])
  }

  function RunTurn(w: World, thread: Thread, t: string, text: string, allow: bool, cap: real, rounds: nat,
                   db: seq<Row>, ran: seq<ToolRun>): Turn
  {
    var refused := Turn(db, ran, [], [], []);
    match thread
    case Missing => Emitted(refused, Error("no_thread", "thread not found"))
    case Archived => Emitted(refused, Error("archived", "thread is archived"))
    case Live =>
      if Cost(Of(db, t)) >= cap then Emitted(refused, Error("cost_cap", "thread cost reached the cap"))
      else TurnFrom(w, t, allow, cap, rounds, 0, Opened(t, text, db, ran))
  }

  // ---- confirming a proposed action ----

  datatype Reply = Reply(ok: bool, status: string, message: string)

  function StatusText(s: Status): string {
    match s
    case Pending => "pending"
    case Rejected => "rejected"
    case Executed => "executed"
    case Failed => "failed"
  }

  predicate LooksFailed(output: string) {
    var low := Text.Lower(output);
    "error" <= low || "[tool error" <= low || "permission denied" <= low
  }

  function RejectNote(summary: string): string {
    if summary == "" then "Okay, cancelled."
    else "Okay \U{2014} I won't " + Text.Lower(summary[..1]) + summary[1..] + "."
  }

  function ResultNote(summary: string, output: string): string {
    Prefix((if LooksFailed(output) then "\U{2717} " else "\U{2713} ") + summary + "\n\n" + output, NOTE_LIMIT)
  }

  datatype Confirmed = Confirmed(db: seq<Row>, ran: seq<ToolRun>, reply: Reply)

  function Confirm(output: string, thread: Thread, t: string, id: nat, approve: bool,
                   db: seq<Row>, ran: seq<ToolRun>): Confirmed
  {
    if thread.Missing? then Confirmed(db, ran, Reply(false, "error", "thread not found"))
    else if id >= |db| || !db[id].body.Action? || db[id].thread != t then
      Confirmed(db, ran, Reply(false, "error", "action not found"))
    else
      var action := db[id].body;
      var call := action.call;
      var summary := if action.text != "" then action.text else call.name;
      if action.status != Pending then
        Confirmed(db, ran, Reply(false, StatusText(action.status), "action already " + StatusText(action.status)))
      else if !approve then
        var note := RejectNote(summary);
        Confirmed(Appended(WithStatus(db, id, Rejected), t, Assistant(note, []), None), ran,
                  Reply(true, "rejected", note))
      else if !IsConfirm(call.name) then
        Confirmed(WithStatus(db, id, Failed), ran, Reply(false, "failed",
            "'" + call.name + "' is not a confirmable action"))
      else
        var status := if LooksFailed(output) then Failed else Executed;
        Confirmed(Appended(WithStatus(db, id, status), t, Assistant(ResultNote(summary, output), []), None),
                  ran + [ToolRun(call.name, call.input, Some(id))],
                  Reply(status == Executed, StatusText(status), summary))
  }
}
