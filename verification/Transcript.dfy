/**
 * The stored assistant thread (forven/assistant_db.py) and the history rebuilt
 * from it for the model (forven/assistant_session.py, _history_to_llm_messages).
 *
 * The message table is append-only apart from the status column, so it is a
 * sequence of rows and a row's id is its position.
 */
module Transcript {
  import opened Basics
  import ModelStream

  type Call = ModelStream.Call

  datatype Status = Pending | Rejected | Executed | Failed

  datatype Body =
    | User(text: string)
    | Assistant(text: string, calls: seq<Call>)
    | Tool(text: string, call: Call)
    | Action(text: string, call: Call, status: Status)

  datatype Row = Row(thread: string, number: nat, body: Body, cost: Option<real>)

  /** `SELECT ... WHERE thread_id = ?`, in insertion order. */
  function Of(db: seq<Row>, t: string): seq<Row> {
    if db == [] then []
    else
      var last := db[|db| - 1];
      Of(db[..|db| - 1], t) + (if last.thread == t then [last] else [])
  }

  /** `COALESCE(MAX(seq), 0)`. */
  function MaxNumber(rows: seq<Row>): nat {
    if rows == [] then 0 else Max(MaxNumber(rows[..|rows| - 1]), rows[|rows| - 1].number)
  }

  function Appended(db: seq<Row>, t: string, body: Body, cost: Option<real>): seq<Row> {
    db + [Row(t, MaxNumber(Of(db, t)) + 1, body, cost)]
  }

  function WithStatus(db: seq<Row>, id: nat, status: Status): seq<Row>
    requires id < |db| && db[id].body.Action?
  {
    db[id := db[id].(body := db[id].body.(status := status))]
  }

  /** `COALESCE(SUM(cost_usd), 0)`. */
  function Cost(rows: seq<Row>): real {
    if rows == [] then 0.0 else Cost(rows[..|rows| - 1]) + rows[|rows| - 1].cost.GetOr(0.0)
  }

  lemma OfAppended(db: seq<Row>, r: Row, t: string)
    ensures Of(db + [r], t) == Of(db, t) + (if r.thread == t then [r] else [])
  {
    assert (db + [r])[..|db|] == db;
  }

  lemma SnocCost(rows: seq<Row>, r: Row)
    ensures Cost(rows + [r]) == Cost(rows) + r.cost.GetOr(0.0)
    ensures MaxNumber(rows + [r]) == Max(MaxNumber(rows), r.number)
  {
    assert (rows + [r])[..|rows|] == rows;
  }

  /** Row numbers of a thread are 1, 2, 3, ... so `ORDER BY seq` is insertion order. */
  ghost predicate Numbered(rows: seq<Row>) {
    forall i :: 0 <= i < |rows| ==> rows[i].number == i + 1
  }

  lemma {:induction false} NumberedMax(rows: seq<Row>)
    requires Numbered(rows)
    ensures MaxNumber(rows) == |rows|
  {
    if rows != [] { NumberedMax(rows[..|rows| - 1]); }
  }

  lemma AppendKeepsNumbering(db: seq<Row>, u: string, body: Body, cost: Option<real>, t: string)
    requires Numbered(Of(db, t))
    ensures Numbered(Of(Appended(db, u, body, cost), t))
    ensures Appended(db, t, body, cost)[|db|].number == |Of(db, t)| + 1
  {
    NumberedMax(Of(db, t));
    var r := Row(u, MaxNumber(Of(db, u)) + 1, body, cost);
    OfAppended(db, r, t);
    if u == t { NumberedSnoc(Of(db, t), r); }
  }

  lemma NumberedSnoc(rows: seq<Row>, r: Row)
    requires Numbered(rows) && r.number == |rows| + 1
    ensures Numbered(rows + [r])
  {
    forall i | 0 <= i < |rows + [r]| ensures (rows + [r])[i].number == i + 1 {
      if i < |rows| { assert (rows + [r])[i] == rows[i]; }
    }
  }

  // ---- which calls are still waiting for their result ----

  /** One row read while `owed` calls wait, oldest first; None when the order is broken. */
  function Next(owed: seq<Call>, body: Body): Option<seq<Call>> {
    match body
    case Action(_, _, _) => Some(owed)
    case Tool(_, call) => if owed != [] && owed[0] == call then Some(owed[1..]) else None
    case User(_) => if owed == [] then Some([]) else None
    case Assistant(_, calls) => if owed == [] then Some(calls) else None
  }

  function Owed(rows: seq<Row>, start: seq<Call>): Option<seq<Call>> {
    if rows == [] then Some(start)
    else
      match Owed(rows[..|rows| - 1], start)
      case None => None
      case Some(owed) => Next(owed, rows[|rows| - 1].body)
  }

  /** Every persisted call is followed, in order and before the next speaker, by its own result row. */
  predicate Settled(db: seq<Row>, t: string) {
    Owed(Of(db, t), []) == Some([])
  }

  lemma OwedSnoc(rows: seq<Row>, r: Row, start: seq<Call>)
    ensures Owed(rows + [r], start) ==
            match Owed(rows, start) case None => None case Some(owed) => Next(owed, r.body)
  {
    assert (rows + [r])[..|rows|] == rows;
  }

  lemma {:induction false} OwedCompose(a: seq<Row>, b: seq<Row>, start: seq<Call>)
    ensures Owed(a + b, start) == match Owed(a, start) case None => None case Some(owed) => Owed(b, owed)
  {
    if b == [] {
      assert a + b == a;
    } else {
      var n := |b| - 1;
      assert (a + b)[..|a + b| - 1] == a + b[..n];
      OwedCompose(a, b[..n], start);
    }
  }

  /** Appending to thread `u` leaves every other thread as it was. */
  lemma AppendElsewhere(db: seq<Row>, u: string, body: Body, cost: Option<real>, t: string)
    ensures u != t ==> Of(Appended(db, u, body, cost), t) == Of(db, t)
    ensures u == t ==> Of(Appended(db, u, body, cost), t) == Of(db, t) + [Appended(db, u, body, cost)[|db|]]
  {
    OfAppended(db, Appended(db, u, body, cost)[|db|], t);
  }

  lemma AppendOwed(db: seq<Row>, t: string, body: Body, cost: Option<real>, start: seq<Call>)
    ensures var db' := Appended(db, t, body, cost);
            Owed(Of(db', t), start) ==
            match Owed(Of(db, t), start) case None => None case Some(owed) => Next(owed, body)
    ensures Cost(Of(Appended(db, t, body, cost), t)) == Cost(Of(db, t)) + cost.GetOr(0.0)
  {
    AppendElsewhere(db, t, body, cost, t);
    var r := Appended(db, t, body, cost)[|db|];
    OwedSnoc(Of(db, t), r, start);
    SnocCost(Of(db, t), r);
  }

  /** Same rows up to the status of actions. */
  predicate Alike(r: Row, r': Row) {
    && r.thread == r'.thread && r.number == r'.number && r.cost == r'.cost
    && (r.body == r'.body
        || (r.body.Action? && r'.body.Action? && r'.body == r.body.(status := r'.body.status)))
  }

  ghost predicate AllAlike(a: seq<Row>, b: seq<Row>) {
    |a| == |b| && forall i :: 0 <= i < |a| ==> Alike(a[i], b[i])
  }

  lemma {:induction false} AlikeThreads(a: seq<Row>, b: seq<Row>, t: string)
    requires AllAlike(a, b)
    ensures AllAlike(Of(a, t), Of(b, t))
  {
    if a != [] { AlikeThreads(a[..|a| - 1], b[..|b| - 1], t); }
  }

  lemma {:induction false} AlikeOwed(a: seq<Row>, b: seq<Row>, start: seq<Call>)
    requires AllAlike(a, b)
    ensures Owed(a, start) == Owed(b, start)
  {
    if a != [] {
      var n := |a| - 1;
      AlikeOwed(a[..n], b[..n], start);
      assert Alike(a[n], b[n]);
    }
  }

  lemma {:induction false} AlikeCost(a: seq<Row>, b: seq<Row>)
    requires AllAlike(a, b)
    ensures Cost(a) == Cost(b)
  {
    if a != [] {
      AlikeCost(a[..|a| - 1], b[..|b| - 1]);
    }
  }

  /** A status update is invisible to numbering, cost and pairing, in every thread. */
  lemma StatusOnly(db: seq<Row>, id: nat, status: Status, t: string)
    requires id < |db| && db[id].body.Action?
    ensures var rows, rows' := Of(db, t), Of(WithStatus(db, id, status), t);
            && Owed(rows', []) == Owed(rows, [])
            && Cost(rows') == Cost(rows)
            && (Numbered(rows) ==> Numbered(rows'))
  {
    var db' := WithStatus(db, id, status);
    assert AllAlike(db, db') by {
      forall i | 0 <= i < |db| ensures Alike(db[i], db'[i]) { }
    }
    AlikeThreads(db, db', t);
    AlikeOwed(Of(db, t), Of(db', t), []);
    AlikeCost(Of(db, t), Of(db', t));
  }

  // ---- the history sent to the model ----

  datatype Msg =
    | SystemMsg(text: string)
    | UserMsg(text: string)
    | AssistantMsg(text: string, calls: seq<Call>)
    | ToolMsg(text: string, callId: string)

  function RowToMsgs(body: Body): seq<Msg> {
    match body
    case Action(_, _, _) => []
    case User(text) => [UserMsg(text)]
    case Assistant(text, calls) => [AssistantMsg(text, calls)]
    case Tool(text, call) => [ToolMsg(text, call.id)]
  }

  function HistoryToMsgs(rows: seq<Row>): seq<Msg> {
    if rows == [] then []
    else HistoryToMsgs(rows[..|rows| - 1]) + RowToMsgs(rows[|rows| - 1].body)
  }

  lemma {:induction false} HistoryCompose(a: seq<Row>, b: seq<Row>)
    ensures HistoryToMsgs(a + b) == HistoryToMsgs(a) + HistoryToMsgs(b)
  {
    if b == [] {
      assert a + b == a;
    } else {
      var n := |b| - 1;
      assert (a + b)[..|a + b| - 1] == a + b[..n];
      HistoryCompose(a, b[..n]);
    }
  }

  lemma HistoryOne(r: Row)
    ensures HistoryToMsgs([r]) == RowToMsgs(r.body)
  {
    assert [r][..0] == [];
  }

  function Ids(calls: seq<Call>): seq<string> {
    seq(|calls|, i requires 0 <= i < |calls| => calls[i].id)
  }

  /** The same bookkeeping on messages, by call id. */
  function NextMsg(owed: seq<string>, m: Msg): Option<seq<string>> {
    match m
    case ToolMsg(_, id) => if owed != [] && owed[0] == id then Some(owed[1..]) else None
    case AssistantMsg(_, calls) => if owed == [] then Some(Ids(calls)) else None
    case _ => if owed == [] then Some([]) else None
  }

  function Await(ms: seq<Msg>, start: seq<string>): Option<seq<string>> {
    if ms == [] then Some(start)
    else
      match Await(ms[..|ms| - 1], start)
      case None => None
      case Some(owed) => NextMsg(owed, ms[|ms| - 1])
  }

  lemma AwaitSnoc(ms: seq<Msg>, m: Msg, start: seq<string>)
    ensures Await(ms + [m], start) ==
            match Await(ms, start) case None => None case Some(owed) => NextMsg(owed, m)
  {
    assert (ms + [m])[..|ms|] == ms;
  }

  lemma {:induction false} AwaitCompose(a: seq<Msg>, b: seq<Msg>, start: seq<string>)
    ensures Await(a + b, start) == match Await(a, start) case None => None case Some(owed) => Await(b, owed)
  {
    if b == [] {
      assert a + b == a;
    } else {
      var n := |b| - 1;
      assert (a + b)[..|a + b| - 1] == a + b[..n];
      AwaitCompose(a, b[..n], start);
    }
  }

  /** Reading the first message first. */
  lemma AwaitHead(ms: seq<Msg>, start: seq<string>)
    requires ms != []
    ensures Await(ms, start) ==
            match NextMsg(start, ms[0]) case None => None case Some(owed) => Await(ms[1..], owed)
  {
    assert ms == [ms[0]] + ms[1..];
    AwaitCompose([ms[0]], ms[1..], start);
    AwaitSnoc([], ms[0], start);
    assert [] + [ms[0]] == [ms[0]];
  }

  lemma {:induction false} RowsToMsgs(rows: seq<Row>, start: seq<Call>)
    requires Owed(rows, start).Some?
    ensures Await(HistoryToMsgs(rows), Ids(start)) == Some(Ids(Owed(rows, start).value))
  {
    if rows != [] {
      var n := |rows| - 1;
      RowsToMsgs(rows[..n], start);
      var before := Owed(rows[..n], start).value;
      var body := rows[n].body;
      if body.Action? {
        assert HistoryToMsgs(rows) == HistoryToMsgs(rows[..n]);
      } else {
        var m := RowToMsgs(body)[0];
        assert HistoryToMsgs(rows) == HistoryToMsgs(rows[..n]) + [m];
        AwaitSnoc(HistoryToMsgs(rows[..n]), m, Ids(start));
        RowIsMsg(body, before);
      }
    }
  }

  /** A row and its message settle the same debt. */
  lemma RowIsMsg(body: Body, owed: seq<Call>)
    requires !body.Action? && Next(owed, body).Some?
    ensures NextMsg(Ids(owed), RowToMsgs(body)[0]) == Some(Ids(Next(owed, body).value))
  {
    if owed == [] { assert Ids(owed) == []; } else { assert Ids(owed)[1..] == Ids(owed[1..]); }
  }

  /**
   * The shape of a history cut anywhere: results owed from before the cut come
   * first, in order, and everything after them is fully paired.
   */
  lemma {:induction false} OrphansThenPaired(ms: seq<Msg>, owed: seq<string>)
    requires Await(ms, owed) == Some([])
    ensures |owed| <= |ms|
    ensures forall i :: 0 <= i < |owed| ==> ms[i].ToolMsg? && ms[i].callId == owed[i]
    ensures Await(ms[|owed|..], []) == Some([])
  {
    if owed == [] {
      assert ms[0..] == ms;
    } else {
      AwaitHead(ms, owed);
      OrphansThenPaired(ms[1..], owed[1..]);
      assert ms[1..][|owed| - 1..] == ms[|owed|..];
      assert forall i :: 0 < i < |owed| ==> ms[i] == ms[1..][i - 1] && owed[i] == owed[1..][i - 1];
    }
  }

  /** Every assistant message's calls are answered by the messages right behind it, in order. */
  ghost predicate AllAnswered(ms: seq<Msg>) {
    forall i :: 0 <= i < |ms| && ms[i].AssistantMsg? ==> AnsweredAt(ms, i, ms[i].calls)
  }

  ghost predicate AnsweredAt(ms: seq<Msg>, i: nat, calls: seq<Call>) {
    && i + |calls| < |ms|
    && forall j :: 0 <= j < |calls| ==> ms[i + 1 + j].ToolMsg? && ms[i + 1 + j].callId == calls[j].id
  }

  lemma PairedMeansAnswered(ms: seq<Msg>, owed: seq<string>)
    requires Await(ms, owed) == Some([])
    ensures AllAnswered(ms)
  {
    forall i | 0 <= i < |ms| && ms[i].AssistantMsg? ensures AnsweredAt(ms, i, ms[i].calls) {
      AssistantAnswered(ms, owed, i);
    }
  }

  lemma AssistantAnswered(ms: seq<Msg>, owed: seq<string>, i: nat)
    requires i < |ms| && ms[i].AssistantMsg? && Await(ms, owed) == Some([])
    ensures AnsweredAt(ms, i, ms[i].calls)
  {
    var calls := ms[i].calls;
    assert ms == ms[..i] + ms[i..];
    AwaitCompose(ms[..i], ms[i..], owed);
    AwaitHead(ms[i..], Await(ms[..i], owed).value);
    assert ms[i..][1..] == ms[i + 1..];
    OrphansThenPaired(ms[i + 1..], Ids(calls));
    forall j | 0 <= j < |calls| ensures ms[i + 1 + j].ToolMsg? && ms[i + 1 + j].callId == calls[j].id {
      assert ms[i + 1..][j] == ms[i + 1 + j];
    }
  }

  const MAX_HISTORY: nat := 60

  /** `list_messages(thread_id)[-60:]`. */
  function Recent(rows: seq<Row>): seq<Row> {
    if |rows| <= MAX_HISTORY then rows else rows[|rows| - MAX_HISTORY..]
  }

  /** A settled thread gives a fully answered history after the 60-row cut, wherever it falls. */
  lemma CutHistoryIsAnswered(rows: seq<Row>) returns (owed: seq<string>)
    requires Owed(rows, []) == Some([])
    ensures Await(HistoryToMsgs(Recent(rows)), owed) == Some([])
  {
    var cut := if |rows| <= MAX_HISTORY then 0 else |rows| - MAX_HISTORY;
    assert rows == rows[..cut] + rows[cut..];
    OwedCompose(rows[..cut], rows[cut..], []);
    var pending := Owed(rows[..cut], []).value;
    RowsToMsgs(rows[cut..], pending);
    assert Ids([]) == [];
    owed := Ids(pending);
    assert Recent(rows) == rows[cut..];
  }
}
