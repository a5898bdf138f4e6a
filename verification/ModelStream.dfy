/**
 * One model invocation of the assistant: up to four streaming attempts, then a
 * one-shot text-only fallback (forven/assistant_session.py, _invoke_llm_stream).
 * The provider is an arbitrary script of what each attempt would do.
 */
module ModelStream {
  import opened Basics
  import opened Text

  /** A tool call emitted by the model; the JSON input is kept as text. */
  datatype Call = Call(id: string, name: string, input: string)

  /** What a provider yields: a text delta, or its closing response. */
  datatype Step =
    | Delta(text: string)
    | Response(content: string, calls: seq<Call>, cost: Option<real>)

  datatype End = Finished | Raised(message: string, recoverable: bool)

  datatype Attempt = Attempt(steps: seq<Step>, end: End)

  datatype Fallback = Answered(text: string) | Failed(message: string)

  datatype Script = Script(attempts: nat -> Attempt, fallback: Fallback)

  /** What the invocation yields to the turn. */
  datatype Item =
    | Shown(text: string)
    | Final(content: string, calls: seq<Call>, cost: Option<real>, error: Option<string>)

  const RETRIES: nat := 3

  function EmitStep(s: Step): seq<Item> {
    match s
    case Delta(text) => if text == "" then [] else [Shown(text)]
    case Response(content, calls, cost) => [Final(content, calls, cost, None)]
  }

  function Emit(steps: seq<Step>): seq<Item> {
    if steps == [] then [] else EmitStep(steps[0]) + Emit(steps[1..])
  }

  /** The attempt has shown text, so it must not be retried. */
  predicate Produced(steps: seq<Step>) {
    exists i :: 0 <= i < |steps| && steps[i].Delta? && steps[i].text != ""
  }

  function Failure(message: string): Item {
    Final("", [], None, Some(message))
  }

  function Fall(f: Fallback): seq<Item> {
    match f
    case Failed(message) => [Failure(message)]
    case Answered(text) => (if text == "" then [] else [Shown(text)]) + [Final(text, [], None, None)]
  }

  /** What becomes of an attempt once its events are consumed. */
  datatype Verdict = Closed | Interrupted | GiveUp | TryAgain

  function Judge(a: Attempt, produced: bool, k: nat): (v: Verdict)
    ensures v.Interrupted? ==> a.end.Raised?
    ensures v.TryAgain? ==> k < RETRIES
  {
    match a.end
    case Finished => Closed
    case Raised(_, recoverable) =>
      if produced then Interrupted
      else if !recoverable || k >= RETRIES then GiveUp
      else TryAgain
  }

  /** What follows the events of attempt `k`. */
  function Tail(s: Script, k: nat): seq<Item>
    requires k <= RETRIES
    decreases RETRIES - k, 0
  {
    var a := s.attempts(k);
    match Judge(a, Produced(a.steps), k)
    case Closed => []
    case Interrupted => [Failure(a.end.message)]
    case GiveUp => Fall(s.fallback)
    case TryAgain => After(s, k + 1)
  }

  function After(s: Script, k: nat): seq<Item>
    requires k <= RETRIES
    decreases RETRIES - k, 1
  {
    Emit(s.attempts(k).steps) + Tail(s, k)
  }

  /** Attempts made beyond attempt `k`. */
  function Retries(s: Script, k: nat): (n: nat)
    requires k <= RETRIES
    ensures k + n <= RETRIES
    decreases RETRIES - k
  {
    var a := s.attempts(k);
    if Judge(a, Produced(a.steps), k).TryAgain? then 1 + Retries(s, k + 1) else 0
  }

  function FallsBack(s: Script, k: nat): bool
    requires k <= RETRIES
    decreases RETRIES - k
  {
    var a := s.attempts(k);
    match Judge(a, Produced(a.steps), k)
    case GiveUp => true
    case TryAgain => FallsBack(s, k + 1)
    case _ => false
  }

  function Stream(s: Script): seq<Item> {
    After(s, 0)
  }

  /** The text the operator sees, in order. */
  function Texts(items: seq<Item>): seq<string> {
    if items == [] then []
    else (if items[0].Shown? then [items[0].text] else []) + Texts(items[1..])
  }

  function Finals(items: seq<Item>): seq<Item> {
    if items == [] then []
    else (if items[0].Final? then [items[0]] else []) + Finals(items[1..])
  }

  lemma {:induction false} EmitAppend(a: seq<Step>, b: seq<Step>)
    ensures Emit(a + b) == Emit(a) + Emit(b)
  {
    if a == [] {
      assert a + b == b;
    } else {
      assert (a + b)[0] == a[0] && (a + b)[1..] == a[1..] + b;
      EmitAppend(a[1..], b);
    }
  }

  lemma EmitSnoc(steps: seq<Step>, step: Step)
    ensures Emit(steps + [step]) == Emit(steps) + EmitStep(step)
  {
    EmitAppend(steps, [step]);
    assert Emit([step]) == EmitStep(step) + Emit([]);
  }

  lemma {:induction false} ShownAppend(a: seq<Item>, b: seq<Item>)
    ensures Texts(a + b) == Texts(a) + Texts(b)
  {
    if a == [] {
      assert a + b == b;
    } else {
      assert (a + b)[0] == a[0] && (a + b)[1..] == a[1..] + b;
      ShownAppend(a[1..], b);
    }
  }

  lemma {:induction false} FinalsAppend(a: seq<Item>, b: seq<Item>)
    ensures Finals(a + b) == Finals(a) + Finals(b)
  {
    if a == [] {
      assert a + b == b;
    } else {
      assert (a + b)[0] == a[0] && (a + b)[1..] == a[1..] + b;
      FinalsAppend(a[1..], b);
    }
  }

  lemma TextsAppend(a: seq<Item>, b: seq<Item>)
    ensures Texts(a + b) == Texts(a) + Texts(b)
    ensures Finals(a + b) == Finals(a) + Finals(b)
  {
    ShownAppend(a, b);
    FinalsAppend(a, b);
  }

  lemma ProducedAppend(steps: seq<Step>, step: Step)
    ensures Produced(steps + [step]) <==> Produced(steps) || (step.Delta? && step.text != "")
  {
    var all := steps + [step];
    assert all[|steps|] == step;
    assert forall i :: 0 <= i < |steps| ==> all[i] == steps[i];
  }

  lemma FallLaw(f: Fallback)
    ensures var items := Fall(f);
            && |Finals(items)| == 1 && items[|items| - 1].Final?
            && Join(Texts(items)) == (if f.Answered? then f.text else "")
            && (f.Failed? ==> Texts(items) == [])
  {
    if f.Answered? && f.text != "" {
      TextsAppend([Shown(f.text)], [Final(f.text, [], None, None)]);
      assert Texts(Fall(f)) == [f.text];
      assert Join([f.text]) == f.text + Join([]);
    }
  }

  /** Consumes one attempt's events, tracking whether any text has been shown. */
  method ConsumeAttempt(steps: seq<Step>) returns (items: seq<Item>, produced: bool)
    ensures items == Emit(steps) && produced == Produced(steps)
  {
    items, produced := [], false;
    for i := 0 to |steps|
      invariant items == Emit(steps[..i])
      invariant produced == Produced(steps[..i])
    {
      var step := steps[i];
      assert steps[..i + 1] == steps[..i] + [step];
      EmitSnoc(steps[..i], step);
      ProducedAppend(steps[..i], step);
      match step {
        case Delta(text) =>
          if text != "" {
            produced := true;
            items := items + [Shown(text)];
          }
        case Response(content, calls, cost) =>
          items := items + [Final(content, calls, cost, None)];
      }
    }
    assert steps[..|steps|] == steps;
  }

  /** One final, last, that carries the error or else exactly the text shown. */
  method ConsumeFallback(f: Fallback) returns (items: seq<Item>)
    ensures items == Fall(f)
    ensures |Finals(items)| == 1 && items != [] && items[|items| - 1].Final?
    ensures var last := items[|items| - 1];
            && (f.Failed? ==> last.error == Some(f.message) && Texts(items) == [])
            && (f.Answered? ==> last.error == None && last.content == f.text && Join(Texts(items)) == f.text)
  {
    FallLaw(f);
    match f {
      case Failed(message) => items := [Failure(message)];
      case Answered(text) =>
        items := [];
        if text != "" { items := [Shown(text)]; }
        items := items + [Final(text, [], None, None)];
    }
  }

  /** The invocation itself, attempt by attempt. */
  method InvokeStream(s: Script) returns (items: seq<Item>, attempts: nat, fellBack: bool)
    ensures items == Stream(s)
    ensures attempts == 1 + Retries(s, 0)
    ensures fellBack == FallsBack(s, 0)
  {
    items, attempts, fellBack := [], 0, false;
    while true
      invariant 0 <= attempts <= RETRIES
      invariant items + After(s, attempts) == Stream(s)
      invariant attempts + Retries(s, attempts) == Retries(s, 0)
      invariant FallsBack(s, attempts) == FallsBack(s, 0)
      decreases RETRIES - attempts
    {
      var a := s.attempts(attempts);
      var out, produced := ConsumeAttempt(a.steps);
      AfterIs(s, attempts, items);
      items := items + out;
      AttemptCases(s, attempts);
      match Judge(a, produced, attempts) {
        case Closed =>
          attempts := attempts + 1;
          return;
        case Interrupted =>
          items := items + [Failure(a.end.message)];
          attempts := attempts + 1;
          return;
        case GiveUp =>
          var last := ConsumeFallback(s.fallback);
          items := items + last;
          attempts, fellBack := attempts + 1, true;
          return;
        case TryAgain =>
          attempts := attempts + 1;
      }
    }
  }

  /** What each verdict on attempt `k` means for the rest of the invocation. */
  lemma AttemptCases(s: Script, k: nat)
    requires k <= RETRIES
    ensures match Judge(s.attempts(k), Produced(s.attempts(k).steps), k)
            case Closed => Tail(s, k) == [] && Retries(s, k) == 0 && !FallsBack(s, k)
            case Interrupted =>
              Tail(s, k) == [Failure(s.attempts(k).end.message)] && Retries(s, k) == 0 && !FallsBack(s, k)
            case GiveUp => Tail(s, k) == Fall(s.fallback) && Retries(s, k) == 0 && FallsBack(s, k)
            case TryAgain =>
              && Tail(s, k) == After(s, k + 1) && Retries(s, k) == 1 + Retries(s, k + 1)
              && FallsBack(s, k) == FallsBack(s, k + 1)
  {
  }

  lemma AfterIs(s: Script, k: nat, items: seq<Item>)
    requires k <= RETRIES
    ensures items + After(s, k) == items + Emit(s.attempts(k).steps) + Tail(s, k)
  {
  }

  lemma {:induction false} SilentWhenNothingProduced(steps: seq<Step>)
    ensures Texts(Emit(steps)) == [] <==> !Produced(steps)
  {
    if steps != [] {
      SilentWhenNothingProduced(steps[1..]);
      TextsAppend(EmitStep(steps[0]), Emit(steps[1..]));
      if Produced(steps[1..]) {
        var i :| 0 <= i < |steps[1..]| && steps[1..][i].Delta? && steps[1..][i].text != "";
        assert steps[i + 1] == steps[1..][i];
      }
      if Produced(steps) && !(steps[0].Delta? && steps[0].text != "") {
        var i :| 0 <= i < |steps| && steps[i].Delta? && steps[i].text != "";
        assert steps[1..][i - 1] == steps[i];
      }
      if steps[0].Delta? && steps[0].text != "" {
        assert Texts(EmitStep(steps[0])) == [steps[0].text] + Texts([]);
      }
    }
  }

  /** The last attempt made from attempt `k` on. */
  function LastAttempt(s: Script, k: nat): (last: nat)
    requires k <= RETRIES
    ensures k <= last <= RETRIES
  {
    k + Retries(s, k)
  }

  /** The text of the last attempt made, or of the fallback when it was used. */
  function SourceText(s: Script, k: nat): seq<string>
    requires k <= RETRIES
  {
    if FallsBack(s, k) then Texts(Fall(s.fallback)) else Texts(Emit(s.attempts(LastAttempt(s, k)).steps))
  }

  lemma RetryIsSilent(s: Script, k: nat)
    requires k <= RETRIES && Judge(s.attempts(k), Produced(s.attempts(k).steps), k) in {TryAgain, GiveUp}
    ensures Texts(Emit(s.attempts(k).steps)) == []
  {
    SilentWhenNothingProduced(s.attempts(k).steps);
  }

  /** One attempt's share of the text shown. */
  lemma TextsStep(s: Script, k: nat)
    requires k <= RETRIES
    ensures Texts(After(s, k)) ==
            match Judge(s.attempts(k), Produced(s.attempts(k).steps), k)
            case TryAgain => Texts(After(s, k + 1))
            case GiveUp => Texts(Fall(s.fallback))
            case _ => Texts(Emit(s.attempts(k).steps))
  {
    var a := s.attempts(k);
    ShownAppend(Emit(a.steps), Tail(s, k));
    match Judge(a, Produced(a.steps), k)
    case Closed =>
    case Interrupted => assert Texts([Failure(a.end.message)]) == [];
    case _ => RetryIsSilent(s, k);
  }

  lemma SourceStep(s: Script, k: nat)
    requires k <= RETRIES
    ensures SourceText(s, k) ==
            match Judge(s.attempts(k), Produced(s.attempts(k).steps), k)
            case TryAgain => SourceText(s, k + 1)
            case GiveUp => Texts(Fall(s.fallback))
            case _ => Texts(Emit(s.attempts(k).steps))
  {
  }

  lemma {:induction false} TextsComeFromSource(s: Script, k: nat)
    requires k <= RETRIES
    ensures Texts(After(s, k)) == SourceText(s, k)
    decreases RETRIES - k
  {
    TextsStep(s, k);
    SourceStep(s, k);
    if Judge(s.attempts(k), Produced(s.attempts(k).steps), k).TryAgain? { TextsComeFromSource(s, k + 1); }
  }

  /** Every attempt before the source, and every attempt when the fallback was used, had shown nothing. */
  lemma {:induction false} OthersAreSilent(s: Script, k: nat, i: nat)
    requires k <= RETRIES && k <= i <= LastAttempt(s, k) && (i < LastAttempt(s, k) || FallsBack(s, k))
    ensures Texts(Emit(s.attempts(i).steps)) == []
    decreases i - k
  {
    if i == k {
      RetryIsSilent(s, k);
    } else {
      OthersAreSilent(s, k + 1, i);
    }
  }

  /**
   * For every pattern of provider failures the operator sees the text of one single
   * source: every other attempt had shown nothing. At most four attempts are made.
   */
  lemma ShownTextHasOneSource(s: Script)
    ensures Texts(Stream(s)) == SourceText(s, 0)
    ensures forall i :: 0 <= i <= LastAttempt(s, 0) && (i < LastAttempt(s, 0) || FallsBack(s, 0)) ==>
              Texts(Emit(s.attempts(i).steps)) == []
    ensures 1 + LastAttempt(s, 0) <= 4
  {
    TextsComeFromSource(s, 0);
    forall i | 0 <= i <= LastAttempt(s, 0) && (i < LastAttempt(s, 0) || FallsBack(s, 0))
      ensures Texts(Emit(s.attempts(i).steps)) == []
    {
      OthersAreSilent(s, 0, i);
    }
  }

  /** A provider that closes an attempt with its response and nothing after it, or raises before that. */
  predicate EndsOnResponse(a: Attempt) {
    match a.end
    case Finished =>
      a.steps != [] && a.steps[|a.steps| - 1].Response?
      && forall i :: 0 <= i < |a.steps| - 1 ==> a.steps[i].Delta?
    case Raised(_, _) => forall i :: 0 <= i < |a.steps| ==> a.steps[i].Delta?
  }

  lemma {:induction false} DeltasHaveNoFinal(steps: seq<Step>)
    requires forall i :: 0 <= i < |steps| ==> steps[i].Delta?
    ensures Finals(Emit(steps)) == []
  {
    if steps != [] {
      TextsAppend(EmitStep(steps[0]), Emit(steps[1..]));
      DeltasHaveNoFinal(steps[1..]);
    }
  }

  lemma ClosedHasOneFinal(a: Attempt)
    requires EndsOnResponse(a) && a.end.Finished?
    ensures var items := Emit(a.steps); |Finals(items)| == 1 && items[|items| - 1].Final?
  {
    var n := |a.steps| - 1;
    assert a.steps == a.steps[..n] + [a.steps[n]];
    EmitAppend(a.steps[..n], [a.steps[n]]);
    DeltasHaveNoFinal(a.steps[..n]);
    assert Emit([a.steps[n]]) == EmitStep(a.steps[n]) + Emit([]) == EmitStep(a.steps[n]);
    TextsAppend(Emit(a.steps[..n]), EmitStep(a.steps[n]));
  }

  function Responses(steps: seq<Step>): nat {
    if steps == [] then 0 else (if steps[0].Response? then 1 else 0) + Responses(steps[1..])
  }

  /** Responses given over the attempts made, from attempt `k` on. */
  function ResponsesMade(s: Script, k: nat): nat
    requires k <= RETRIES
    decreases RETRIES - k
  {
    var a := s.attempts(k);
    Responses(a.steps) + (if Judge(a, Produced(a.steps), k).TryAgain? then ResponsesMade(s, k + 1) else 0)
  }

  lemma {:induction false} ResponsesAreFinals(steps: seq<Step>)
    ensures |Finals(Emit(steps))| == Responses(steps)
  {
    if steps != [] {
      FinalsAppend(EmitStep(steps[0]), Emit(steps[1..]));
      ResponsesAreFinals(steps[1..]);
    }
  }

  /** Finals yielded from attempt `k` on, counted attempt by attempt. */
  function Closings(s: Script, k: nat): nat
    requires k <= RETRIES
    decreases RETRIES - k
  {
    var a := s.attempts(k);
    var rest := match Judge(a, Produced(a.steps), k)
      case TryAgain => Closings(s, k + 1)
      case Closed => 0
      case _ => 1;
    Responses(a.steps) + rest
  }

  lemma AfterFinals(s: Script, k: nat)
    requires k <= RETRIES
    ensures |Finals(After(s, k))| == Responses(s.attempts(k).steps) + |Finals(Tail(s, k))|
  {
    FinalsAppend(Emit(s.attempts(k).steps), Tail(s, k));
    ResponsesAreFinals(s.attempts(k).steps);
  }

  lemma TailFinals(s: Script, k: nat)
    requires k <= RETRIES
    ensures match Judge(s.attempts(k), Produced(s.attempts(k).steps), k)
            case TryAgain => Tail(s, k) == After(s, k + 1)
            case Closed => |Finals(Tail(s, k))| == 0
            case _ => |Finals(Tail(s, k))| == 1
  {
    var a := s.attempts(k);
    match Judge(a, Produced(a.steps), k)
    case Interrupted => assert Finals([Failure(a.end.message)]) == [Failure(a.end.message)] + Finals([]);
    case GiveUp => FallLaw(s.fallback);
    case _ =>
  }

  lemma {:induction false} FinalsAreClosings(s: Script, k: nat)
    requires k <= RETRIES
    ensures |Finals(After(s, k))| == Closings(s, k)
    decreases RETRIES - k
  {
    AfterFinals(s, k);
    TailFinals(s, k);
    if Judge(s.attempts(k), Produced(s.attempts(k).steps), k).TryAgain? { FinalsAreClosings(s, k + 1); }
  }

  lemma {:induction false} ClosingsAreCounted(s: Script, k: nat)
    requires k <= RETRIES
    ensures Closings(s, k) == ResponsesMade(s, k) + (if s.attempts(LastAttempt(s, k)).end.Finished? then 0 else 1)
    decreases RETRIES - k
  {
    if Judge(s.attempts(k), Produced(s.attempts(k).steps), k).TryAgain? { ClosingsAreCounted(s, k + 1); }
  }

  /** Whatever providers do: one final for each response, and one more unless the last attempt finished. */
  lemma FinalsAreCounted(s: Script)
    ensures |Finals(Stream(s))| == ResponsesMade(s, 0) + (if s.attempts(LastAttempt(s, 0)).end.Finished? then 0 else 1)
  {
    FinalsAreClosings(s, 0);
    ClosingsAreCounted(s, 0);
  }

  lemma DisciplinedResponses(a: Attempt)
    requires EndsOnResponse(a)
    ensures Responses(a.steps) == if a.end.Finished? then 1 else 0
  {
    ResponsesAreFinals(a.steps);
    if a.end.Finished? { ClosedHasOneFinal(a); } else { DeltasHaveNoFinal(a.steps); }
  }

  lemma {:induction false} DisciplinedClosings(s: Script, k: nat)
    requires k <= RETRIES && forall i :: 0 <= i <= RETRIES ==> EndsOnResponse(s.attempts(i))
    ensures Closings(s, k) == 1
    decreases RETRIES - k
  {
    DisciplinedResponses(s.attempts(k));
    if Judge(s.attempts(k), Produced(s.attempts(k).steps), k).TryAgain? { DisciplinedClosings(s, k + 1); }
  }

  predicate EndsOnFinal(items: seq<Item>) {
    items != [] && items[|items| - 1].Final?
  }

  lemma StillEndsOnFinal(a: seq<Item>, b: seq<Item>)
    requires EndsOnFinal(b)
    ensures EndsOnFinal(a + b)
  {
  }

  lemma ClosedIsEmitted(s: Script, k: nat)
    requires k <= RETRIES && s.attempts(k).end.Finished?
    ensures After(s, k) == Emit(s.attempts(k).steps)
  {
  }

  /** What follows an attempt that raised, when the next one ends on a final. */
  lemma TailEndsOnFinal(s: Script, k: nat)
    requires k <= RETRIES && s.attempts(k).end.Raised? && (k < RETRIES ==> EndsOnFinal(After(s, k + 1)))
    ensures EndsOnFinal(Tail(s, k))
  {
    FallLaw(s.fallback);
  }

  lemma {:induction false} AfterEndsOnFinal(s: Script, k: nat)
    requires k <= RETRIES && forall i :: 0 <= i <= RETRIES ==> EndsOnResponse(s.attempts(i))
    ensures EndsOnFinal(After(s, k))
    decreases RETRIES - k
  {
    if s.attempts(k).end.Finished? {
      ClosedHasOneFinal(s.attempts(k));
      ClosedIsEmitted(s, k);
    } else {
      if k < RETRIES { AfterEndsOnFinal(s, k + 1); }
      TailEndsOnFinal(s, k);
      StillEndsOnFinal(Emit(s.attempts(k).steps), Tail(s, k));
    }
  }

  /** When providers close on their one response, every invocation ends on exactly one final, whatever fails. */
  lemma ExactlyOneFinal(s: Script)
    requires forall i :: 0 <= i <= RETRIES ==> EndsOnResponse(s.attempts(i))
    ensures |Finals(Stream(s))| == 1 && EndsOnFinal(Stream(s))
  {
    FinalsAreClosings(s, 0);
    DisciplinedClosings(s, 0);
    AfterEndsOnFinal(s, 0);
  }

  /** So an invocation closes exactly once when finishing providers respond once and raising ones do not. */
  lemma OneFinalIff(s: Script)
    ensures |Finals(Stream(s))| == 1 <==>
            ResponsesMade(s, 0) == if s.attempts(LastAttempt(s, 0)).end.Finished? then 1 else 0
  {
    FinalsAreCounted(s);
  }

  /** The discipline is needed: a provider that responds and then raises makes the invocation close twice. */
  lemma ResponseThenRaiseClosesTwice(r: Step, message: string)
    requires r.Response?
    ensures var s := Script(k => Attempt([r], Raised(message, false)), Answered(""));
            |Finals(Stream(s))| == 2
  {
    var s := Script(k => Attempt([r], Raised(message, false)), Answered(""));
    assert Emit([r]) == EmitStep(r) + Emit([]);
    assert !Produced([r]);
    assert After(s, 0) == Emit([r]) + Fall(Answered(""));
    TextsAppend(Emit([r]), Fall(Answered("")));
  }

  // ---- invocations that fail ----

  /** The exception's text when the stream breaks off after showing text, or when the fallback raises. */
  function FailureOf(s: Script, k: nat): Option<string>
    requires k <= RETRIES
    decreases RETRIES - k
  {
    var a := s.attempts(k);
    match Judge(a, Produced(a.steps), k)
    case Closed => None
    case Interrupted => Some(a.end.message)
    case GiveUp => if s.fallback.Failed? then Some(s.fallback.message) else None
    case TryAgain => FailureOf(s, k + 1)
  }

  predicate EndsOnFailure(items: seq<Item>, message: string) {
    items != [] && items[|items| - 1] == Failure(message)
  }

  lemma StillEndsOnFailure(a: seq<Item>, b: seq<Item>, message: string)
    requires EndsOnFailure(b, message)
    ensures EndsOnFailure(a + b, message)
  {
  }

  lemma {:induction false} FailedEndsOnFailure(s: Script, k: nat, message: string)
    requires k <= RETRIES && FailureOf(s, k) == Some(message)
    ensures EndsOnFailure(After(s, k), message)
    decreases RETRIES - k
  {
    var a := s.attempts(k);
    if Judge(a, Produced(a.steps), k).TryAgain? { FailedEndsOnFailure(s, k + 1, message); }
    assert EndsOnFailure(Tail(s, k), message);
    StillEndsOnFailure(Emit(a.steps), Tail(s, k), message);
  }
}
