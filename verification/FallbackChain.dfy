/**
 * Calling a model with budget escalation and fallback (forven/ai.py,
 * _next_truncation_budget, _call_single_with_budget_retry, _credentialed_chain, call_ai).
 * A provider is an arbitrary oracle; errors are opaque apart from being a rate limit or not.
 */
module FallbackChain {
  import opened Basics

  datatype Entry = Entry(provider: string, model: string)

  /** What one request to an entry with a token budget does. */
  datatype Reply = Text(text: string) | EmptyTruncated(error: int) | Error(error: int)

  type Oracle = (Entry, int) -> Reply

  datatype Outcome = Done(text: string) | Raised(error: int)

  // ---- budget escalation ----

  const FLOOR: int := 4096
  const CEILING: int := 8192

  function NextBudget(current: int): (next: int)
    ensures next > current <==> current < CEILING
    ensures current < CEILING ==> FLOOR <= next <= CEILING
  {
    if current >= CEILING then current else Min(CEILING, Max(current * 2, FLOOR))
  }

  function Room(budget: int): nat {
    if budget < CEILING then CEILING - budget else 0
  }

  /** The budgets asked of an entry, in order. */
  function Budgets(o: Oracle, e: Entry, budget: int): (asked: seq<int>)
    ensures |asked| > 0 && asked[0] == budget
    decreases Room(budget)
  {
    if o(e, budget).EmptyTruncated? && NextBudget(budget) > budget
    then [budget] + Budgets(o, e, NextBudget(budget)) else [budget]
  }

  /** The last request decides. */
  function Single(o: Oracle, e: Entry, budget: int): Outcome
    decreases Room(budget)
  {
    match o(e, budget)
    case Text(text) => Done(text)
    case Error(error) => Raised(error)
    case EmptyTruncated(error) =>
      if NextBudget(budget) > budget then Single(o, e, NextBudget(budget)) else Raised(error)
  }

  /** Stages left before the ceiling: a budget can be raised at most twice. */
  function Stages(budget: int): nat {
    if budget >= CEILING then 0 else if budget >= FLOOR then 1 else 2
  }

  lemma NextStage(budget: int)
    requires budget < CEILING
    ensures Stages(NextBudget(budget)) < Stages(budget)
  {
  }

  /** Request `k` came back empty and truncated, and the next one asked for more. */
  predicate RisesAt(o: Oracle, e: Entry, asked: seq<int>, k: nat)
    requires k + 1 < |asked|
  {
    asked[k] < asked[k + 1] <= CEILING && o(e, asked[k]).EmptyTruncated?
  }

  /**
   * An entry is asked at most three times, with strictly rising budgets, and only after
   * an empty truncated answer; its outcome is the answer to the last request.
   */
  lemma {:induction false} EscalationLaw(o: Oracle, e: Entry, budget: int)
    ensures var asked := Budgets(o, e, budget);
            && |asked| <= 1 + Stages(budget) <= 3
            && (forall k :: 0 <= k < |asked| - 1 ==> RisesAt(o, e, asked, k))
            && Single(o, e, budget) ==
               (match o(e, asked[|asked| - 1]) case Text(text) => Done(text) case r => Raised(r.error))
            && (o(e, asked[|asked| - 1]).EmptyTruncated? ==> asked[|asked| - 1] >= CEILING)
    decreases Room(budget)
  {
    if o(e, budget).EmptyTruncated? && NextBudget(budget) > budget {
      NextStage(budget);
      EscalationLaw(o, e, NextBudget(budget));
      var tail := Budgets(o, e, NextBudget(budget));
      var asked := Budgets(o, e, budget);
      assert asked == [budget] + tail && asked[|asked| - 1] == tail[|tail| - 1];
      forall k | 0 <= k < |asked| - 1 ensures RisesAt(o, e, asked, k) {
        if k > 0 { assert asked[k] == tail[k - 1] && asked[k + 1] == tail[k] && RisesAt(o, e, tail, k - 1); }
      }
    }
  }

  method CallSingleWithBudgetRetry(o: Oracle, e: Entry, maxTokens: int) returns (result: Outcome, asked: seq<int>)
    ensures result == Single(o, e, maxTokens) && asked == Budgets(o, e, maxTokens)
  {
    var budget := maxTokens;
    asked := [];
    while true
      invariant Single(o, e, budget) == Single(o, e, maxTokens)
      invariant asked + Budgets(o, e, budget) == Budgets(o, e, maxTokens)
      decreases Room(budget)
    {
      asked := asked + [budget];
      match o(e, budget) {
        case Text(text) => return Done(text), asked;
        case Error(error) => return Raised(error), asked;
        case EmptyTruncated(error) =>
          var next := NextBudget(budget);
          if next <= budget {
            return Raised(error), asked;
          }
          budget := next;
      }
    }
  }

  // ---- building the chain ----

  function Others(chain: seq<Entry>, requested: Entry): seq<Entry> {
    if chain == [] then []
    else if chain[0] == requested then Others(chain[1..], requested)
    else [chain[0]] + Others(chain[1..], requested)
  }

  /** The requested pair goes first unless it leads the chain already. */
  function WithRequested(chain: seq<Entry>, requested: Entry): seq<Entry>
    requires chain != []
  {
    if requested != chain[0] then [requested] + Others(chain, requested) else chain
  }

  function Filter(chain: seq<Entry>, has: string -> bool): seq<Entry> {
    if chain == [] then []
    else if has(chain[0].provider) then [chain[0]] + Filter(chain[1..], has)
    else Filter(chain[1..], has)
  }

  /** Credentialed entries only; when there are none, a single attempt on the requested entry. */
  function Credentialed(chain: seq<Entry>, requested: Entry, has: string -> bool): (r: seq<Entry>)
    ensures r != []
  {
    var filtered := Filter(chain, has);
    if filtered != [] then filtered
    else if requested.provider != "" then [requested]
    else if chain != [] then [chain[0]] else [requested]
  }

  function Plan(policy: seq<Entry>, requested: Entry, has: string -> bool): seq<Entry>
    requires policy != []
  {
    Credentialed(WithRequested(policy, requested), requested, has)
  }

  lemma {:induction false} OthersMembers(chain: seq<Entry>, requested: Entry)
    ensures forall e :: e in Others(chain, requested) <==> e in chain && e != requested
  {
    if chain != [] { OthersMembers(chain[1..], requested); }
  }

  lemma {:induction false} FilterMembers(chain: seq<Entry>, has: string -> bool)
    ensures forall e :: e in Filter(chain, has) <==> e in chain && has(e.provider)
  {
    if chain != [] { FilterMembers(chain[1..], has); }
  }

  predicate NoDuplicates(chain: seq<Entry>) {
    chain == [] || (chain[0] !in chain[1..] && NoDuplicates(chain[1..]))
  }

  lemma {:induction false} OthersNoDuplicates(chain: seq<Entry>, requested: Entry)
    requires NoDuplicates(chain)
    ensures NoDuplicates(Others(chain, requested))
  {
    if chain != [] {
      OthersNoDuplicates(chain[1..], requested);
      OthersMembers(chain[1..], requested);
      assert ([chain[0]] + Others(chain[1..], requested))[1..] == Others(chain[1..], requested);
    }
  }

  lemma {:induction false} FilterNoDuplicates(chain: seq<Entry>, has: string -> bool)
    requires NoDuplicates(chain)
    ensures NoDuplicates(Filter(chain, has))
  {
    if chain != [] {
      FilterNoDuplicates(chain[1..], has);
      FilterMembers(chain[1..], has);
      assert ([chain[0]] + Filter(chain[1..], has))[1..] == Filter(chain[1..], has);
    }
  }

  /**
   * The plan holds only the requested pair and entries the operator configured, each once;
   * a provider without credentials is planned only when nothing at all is credentialed,
   * and a credentialed requested pair is planned.
   */
  lemma PlanStaysInsideTheChain(policy: seq<Entry>, requested: Entry, has: string -> bool)
    requires policy != [] && NoDuplicates(policy)
    ensures var plan := Plan(policy, requested, has);
            && NoDuplicates(plan) && plan != []
            && (forall e :: e in plan ==> e == requested || e in policy)
            && ((exists e :: (e == requested || e in policy) && has(e.provider)) ==>
                  forall e :: e in plan <==> (e == requested || e in policy) && has(e.provider))
            && ((forall e :: e == requested || e in policy ==> !has(e.provider)) ==> |plan| == 1)
  {
    var chain := WithRequested(policy, requested);
    OthersMembers(policy, requested);
    OthersNoDuplicates(policy, requested);
    assert forall e :: e in chain <==> e == requested || e in policy;
    assert NoDuplicates(chain) by {
      if requested != policy[0] { assert ([requested] + Others(policy, requested))[1..] == Others(policy, requested); }
    }
    FilterMembers(chain, has);
    FilterNoDuplicates(chain, has);
    var filtered := Filter(chain, has);
    if filtered != [] {
      assert filtered[0] in filtered;
    }
  }

  lemma {:induction false} OthersIdempotent(chain: seq<Entry>, requested: Entry)
    ensures Others(Others(chain, requested), requested) == Others(chain, requested)
  {
    if chain != [] {
      OthersIdempotent(chain[1..], requested);
      if chain[0] != requested { OthersCons(chain[0], Others(chain[1..], requested), requested); }
    }
  }

  lemma OthersCons(e: Entry, chain: seq<Entry>, requested: Entry)
    ensures Others([e] + chain, requested) == (if e == requested then [] else [e]) + Others(chain, requested)
  {
    assert ([e] + chain)[1..] == chain;
  }

  lemma {:induction false} OthersOfFilter(chain: seq<Entry>, requested: Entry, has: string -> bool)
    ensures Others(Filter(chain, has), requested) == Filter(Others(chain, requested), has)
  {
    if chain != [] {
      OthersOfFilter(chain[1..], requested, has);
      if has(chain[0].provider) { OthersCons(chain[0], Filter(chain[1..], has), requested); }
      if chain[0] != requested { FilterCons(chain[0], Others(chain[1..], requested), has); }
    }
  }

  lemma FilterCons(e: Entry, chain: seq<Entry>, has: string -> bool)
    ensures Filter([e] + chain, has) == (if has(e.provider) then [e] else []) + Filter(chain, has)
  {
    assert ([e] + chain)[1..] == chain;
  }

  lemma RequestedLeads(policy: seq<Entry>, requested: Entry)
    requires policy != []
    ensures WithRequested(policy, requested)[0] == requested
    ensures Others(WithRequested(policy, requested), requested) == Others(policy, requested)
  {
    if requested != policy[0] {
      OthersCons(requested, Others(policy, requested), requested);
      OthersIdempotent(policy, requested);
    }
  }

  /**
   * The order of the plan: the requested pair leads when it is credentialed, and what
   * follows is the operator's chain in its own order, without it and without entries that
   * have no credentials. When nothing is credentialed the plan is the requested pair alone.
   */
  lemma PlanOrder(policy: seq<Entry>, requested: Entry, has: string -> bool)
    requires policy != []
    ensures var plan, rest := Plan(policy, requested, has), Filter(Others(policy, requested), has);
            && (has(requested.provider) ==> plan[0] == requested && Others(plan, requested) == rest)
            && (!has(requested.provider) ==> plan == if rest != [] then rest else [requested])
  {
    var chain := WithRequested(policy, requested);
    RequestedLeads(policy, requested);
    OthersOfFilter(chain, requested, has);
    assert chain == [requested] + chain[1..];
    FilterCons(requested, chain[1..], has);
    if !has(requested.provider) { UncredentialedIsOther(chain, requested, has); }
  }

  lemma UncredentialedIsOther(chain: seq<Entry>, requested: Entry, has: string -> bool)
    requires !has(requested.provider)
    ensures Others(Filter(chain, has), requested) == Filter(chain, has)
  {
    FilterMembers(chain, has);
    NothingToDrop(Filter(chain, has), requested);
  }

  lemma {:induction false} NothingToDrop(chain: seq<Entry>, requested: Entry)
    requires requested !in chain
    ensures Others(chain, requested) == chain
  {
    if chain != [] { NothingToDrop(chain[1..], requested); }
  }

  // ---- running the chain ----

  /** What the loop remembers: the last error and the last rate-limit error. */
  datatype Memory = Memory(last: Option<int>, limited: Option<int>)

  function Remember(m: Memory, error: int, isRateLimit: int -> bool): Memory {
    Memory(Some(error), if isRateLimit(error) then Some(error) else m.limited)
  }

  function From(o: Oracle, chain: seq<Entry>, budget: int, isRateLimit: int -> bool, i: nat, m: Memory): Outcome
    requires i <= |chain| && (i == |chain| ==> m.last.Some?)
    decreases |chain| - i
  {
    if i == |chain| then Raised(if m.limited.Some? then m.limited.value else m.last.value)
    else
      match Single(o, chain[i], budget)
      case Done(text) => Done(text)
      case Raised(error) => From(o, chain, budget, isRateLimit, i + 1, Remember(m, error, isRateLimit))
  }

  /** The requests made to one entry. */
  function Pairs(e: Entry, budgets: seq<int>): seq<(Entry, int)> {
    seq(|budgets|, k requires 0 <= k < |budgets| => (e, budgets[k]))
  }

  /** Requests after those to entry `i`. */
  function Rest(o: Oracle, chain: seq<Entry>, budget: int, i: nat): seq<(Entry, int)>
    requires i < |chain|
    decreases |chain| - i, 0
  {
    if Single(o, chain[i], budget).Done? then [] else Requests(o, chain, budget, i + 1)
  }

  function Requests(o: Oracle, chain: seq<Entry>, budget: int, i: nat): seq<(Entry, int)>
    requires i <= |chain|
    decreases |chain| - i, 1
  {
    if i == |chain| then [] else Pairs(chain[i], Budgets(o, chain[i], budget)) + Rest(o, chain, budget, i)
  }

  lemma RequestsStep(o: Oracle, chain: seq<Entry>, budget: int, i: nat, made: seq<(Entry, int)>)
    requires i < |chain|
    ensures made + Requests(o, chain, budget, i) ==
            made + Pairs(chain[i], Budgets(o, chain[i], budget)) + Rest(o, chain, budget, i)
  {
  }

  /** The chain of `call_ai` with fallback on. */
  method CallAi(chain: seq<Entry>, o: Oracle, maxTokens: int, isRateLimit: int -> bool)
    returns (result: Outcome, requests: seq<(Entry, int)>)
    requires chain != []
    ensures result == From(o, chain, maxTokens, isRateLimit, 0, Memory(None, None))
    ensures requests == Requests(o, chain, maxTokens, 0)
  {
    var memory := Memory(None, None);
    ghost var answer, all := From(o, chain, maxTokens, isRateLimit, 0, memory), Requests(o, chain, maxTokens, 0);
    requests := [];
    for i := 0 to |chain|
      invariant i > 0 ==> memory.last.Some?
      invariant From(o, chain, maxTokens, isRateLimit, i, memory) == answer
      invariant requests + Requests(o, chain, maxTokens, i) == all
    {
      RequestsStep(o, chain, maxTokens, i, requests);
      var r, asked := CallSingleWithBudgetRetry(o, chain[i], maxTokens);
      requests := requests + Pairs(chain[i], asked);
      if r.Done? {
        return r, requests;
      }
      memory := Remember(memory, r.error, isRateLimit);
    }
    return Raised(if memory.limited.Some? then memory.limited.value else memory.last.value), requests;
  }

  // ---- which outcome ----

  ghost predicate AllFail(o: Oracle, chain: seq<Entry>, budget: int, lo: nat, hi: nat)
    requires hi <= |chain|
  {
    forall i :: lo <= i < hi ==> Single(o, chain[i], budget).Raised?
  }

  /** `k` is the last failed entry whose error is a rate limit. */
  ghost predicate LastLimited(o: Oracle, chain: seq<Entry>, budget: int, isRateLimit: int -> bool, k: nat)
    requires AllFail(o, chain, budget, 0, |chain|)
  {
    && k < |chain| && isRateLimit(Single(o, chain[k], budget).error)
    && forall i :: k < i < |chain| ==> !isRateLimit(Single(o, chain[i], budget).error)
  }

  ghost predicate NoneLimited(o: Oracle, chain: seq<Entry>, budget: int, isRateLimit: int -> bool, lo: nat)
    requires AllFail(o, chain, budget, lo, |chain|)
  {
    forall i :: lo <= i < |chain| ==> !isRateLimit(Single(o, chain[i], budget).error)
  }

  lemma {:induction false} FromSuccess(o: Oracle, chain: seq<Entry>, budget: int, isRateLimit: int -> bool, i: nat,
                                       m: Memory, k: nat)
    requires i <= k < |chain| && AllFail(o, chain, budget, i, k) && Single(o, chain[k], budget).Done?
    ensures From(o, chain, budget, isRateLimit, i, m) == Single(o, chain[k], budget)
    decreases k - i
  {
    if i < k {
      FromSuccess(o, chain, budget, isRateLimit, i + 1, Remember(m, Single(o, chain[i], budget).error, isRateLimit), k);
    }
  }

  lemma {:induction false} FromNoLimit(o: Oracle, chain: seq<Entry>, budget: int, isRateLimit: int -> bool, i: nat,
                                       m: Memory)
    requires i <= |chain| && AllFail(o, chain, budget, i, |chain|) && (i == |chain| ==> m.last.Some?)
    requires NoneLimited(o, chain, budget, isRateLimit, i)
    ensures From(o, chain, budget, isRateLimit, i, m) ==
            if m.limited.Some? then Raised(m.limited.value)
            else if i < |chain| then Single(o, chain[|chain| - 1], budget) else Raised(m.last.value)
    decreases |chain| - i
  {
    if i < |chain| {
      FromNoLimit(o, chain, budget, isRateLimit, i + 1, Remember(m, Single(o, chain[i], budget).error, isRateLimit));
    }
  }

  lemma {:induction false} FromLimited(o: Oracle, chain: seq<Entry>, budget: int, isRateLimit: int -> bool, i: nat,
                                       m: Memory, k: nat)
    requires i <= k < |chain| && AllFail(o, chain, budget, i, |chain|) && isRateLimit(Single(o, chain[k], budget).error)
    requires NoneLimited(o, chain, budget, isRateLimit, k + 1)
    ensures From(o, chain, budget, isRateLimit, i, m) == Single(o, chain[k], budget)
    decreases k - i
  {
    var m' := Remember(m, Single(o, chain[i], budget).error, isRateLimit);
    if i < k {
      FromLimited(o, chain, budget, isRateLimit, i + 1, m', k);
    } else {
      FromNoLimit(o, chain, budget, isRateLimit, k + 1, m');
    }
  }

  /** The result is the first success in chain order. */
  lemma FirstSuccessWins(o: Oracle, chain: seq<Entry>, budget: int, isRateLimit: int -> bool, k: nat)
    requires k < |chain| && AllFail(o, chain, budget, 0, k) && Single(o, chain[k], budget).Done?
    ensures From(o, chain, budget, isRateLimit, 0, Memory(None, None)) == Single(o, chain[k], budget)
  {
    FromSuccess(o, chain, budget, isRateLimit, 0, Memory(None, None), k);
  }

  /** When all fail, the last rate-limit error is raised if there was one, else the last error. */
  lemma RateLimitTakesPrecedence(o: Oracle, chain: seq<Entry>, budget: int, isRateLimit: int -> bool)
    requires chain != [] && AllFail(o, chain, budget, 0, |chain|)
    ensures var r := From(o, chain, budget, isRateLimit, 0, Memory(None, None));
            && (forall k: nat :: LastLimited(o, chain, budget, isRateLimit, k) ==> r == Single(o, chain[k], budget))
            && (NoneLimited(o, chain, budget, isRateLimit, 0) ==> r == Single(o, chain[|chain| - 1], budget))
  {
    forall k: nat | LastLimited(o, chain, budget, isRateLimit, k)
      ensures From(o, chain, budget, isRateLimit, 0, Memory(None, None)) == Single(o, chain[k], budget)
    {
      FromLimited(o, chain, budget, isRateLimit, 0, Memory(None, None), k);
    }
    if NoneLimited(o, chain, budget, isRateLimit, 0) {
      FromNoLimit(o, chain, budget, isRateLimit, 0, Memory(None, None));
    }
  }

  // ---- which requests ----

  /** Every entry of a chain asked in turn, each with all its budgets. */
  function AskAll(o: Oracle, chain: seq<Entry>, budget: int): seq<(Entry, int)> {
    if chain == [] then [] else Pairs(chain[0], Budgets(o, chain[0], budget)) + AskAll(o, chain[1..], budget)
  }

  /** The entries up to and including the first that succeeds; the whole chain when none does. */
  function Reached(o: Oracle, chain: seq<Entry>, budget: int): seq<Entry> {
    if chain == [] then []
    else if Single(o, chain[0], budget).Done? then [chain[0]]
    else [chain[0]] + Reached(o, chain[1..], budget)
  }

  lemma {:induction false} RequestsFrom(o: Oracle, chain: seq<Entry>, budget: int, i: nat)
    requires i <= |chain|
    ensures Requests(o, chain, budget, i) == AskAll(o, Reached(o, chain[i..], budget), budget)
    decreases |chain| - i
  {
    if i < |chain| {
      assert chain[i..][0] == chain[i] && chain[i..][1..] == chain[i + 1..];
      RequestsFrom(o, chain, budget, i + 1);
      var later := if Single(o, chain[i], budget).Done? then [] else Reached(o, chain[i + 1..], budget);
      AskAllCons(o, chain[i], later, budget);
    }
  }

  lemma AskAllCons(o: Oracle, e: Entry, chain: seq<Entry>, budget: int)
    ensures AskAll(o, [e] + chain, budget) == Pairs(e, Budgets(o, e, budget)) + AskAll(o, chain, budget)
  {
    assert ([e] + chain)[1..] == chain;
  }

  /** What is reached is a prefix of the chain, ending at its first success if there is one. */
  lemma {:induction false} ReachedIsPrefix(o: Oracle, chain: seq<Entry>, budget: int)
    ensures var r := Reached(o, chain, budget);
            && r <= chain
            && (forall i :: 0 <= i < |r| - 1 ==> Single(o, r[i], budget).Raised?)
            && (r != chain ==> r != [] && Single(o, r[|r| - 1], budget).Done?)
  {
    if chain != [] { ReachedIsPrefix(o, chain[1..], budget); }
  }

  /**
   * From the requested pair to the requests made: the entries asked are, in plan order,
   * the plan's up to its first success, each with its own rising budgets. So nothing but
   * the requested pair and the operator's entries is ever asked, and each at most three
   * times.
   */
  lemma RequestsFollowThePlan(policy: seq<Entry>, requested: Entry, has: string -> bool, o: Oracle, budget: int,
                              e: Entry)
    requires policy != [] && NoDuplicates(policy)
    ensures var plan := Plan(policy, requested, has);
            var requests := Requests(o, plan, budget, 0);
            && Reached(o, plan, budget) <= plan
            && requests == AskAll(o, Reached(o, plan, budget), budget)
            && RequestsTo(requests, e) <= 3
            && (RequestsTo(requests, e) > 0 <==> e in Reached(o, plan, budget))
            && (RequestsTo(requests, e) > 0 ==> e == requested || e in policy)
  {
    var plan := Plan(policy, requested, has);
    PlanStaysInsideTheChain(policy, requested, has);
    assert plan[0..] == plan;
    RequestsFrom(o, plan, budget, 0);
    ReachedIsPrefix(o, plan, budget);
    PrefixNoDuplicates(plan, |Reached(o, plan, budget)|);
    assert Reached(o, plan, budget) == plan[..|Reached(o, plan, budget)|];
    AskedOnce(o, Reached(o, plan, budget), budget, e);
  }

  lemma {:induction false} PrefixNoDuplicates(chain: seq<Entry>, n: nat)
    requires NoDuplicates(chain) && n <= |chain|
    ensures NoDuplicates(chain[..n])
  {
    if n > 0 {
      PrefixNoDuplicates(chain[1..], n - 1);
      assert chain[..n][1..] == chain[1..][..n - 1];
    }
  }

  function RequestsTo(requests: seq<(Entry, int)>, e: Entry): nat {
    if requests == [] then 0
    else RequestsTo(requests[..|requests| - 1], e) + (if requests[|requests| - 1].0 == e then 1 else 0)
  }

  lemma {:induction false} RequestsToAppend(a: seq<(Entry, int)>, b: seq<(Entry, int)>, e: Entry)
    ensures RequestsTo(a + b, e) == RequestsTo(a, e) + RequestsTo(b, e)
  {
    if b == [] {
      assert a + b == a;
    } else {
      assert (a + b)[..|a + b| - 1] == a + b[..|b| - 1];
      RequestsToAppend(a, b[..|b| - 1], e);
    }
  }

  lemma {:induction false} RequestsToPairs(e: Entry, budgets: seq<int>, f: Entry)
    ensures RequestsTo(Pairs(e, budgets), f) == if e == f then |budgets| else 0
  {
    if budgets != [] {
      assert Pairs(e, budgets)[..|budgets| - 1] == Pairs(e, budgets[..|budgets| - 1]);
      RequestsToPairs(e, budgets[..|budgets| - 1], f);
    }
  }

  lemma AtMostThree(o: Oracle, e: Entry, budget: int)
    ensures 1 <= |Budgets(o, e, budget)| <= 3
  {
    EscalationLaw(o, e, budget);
  }

  lemma {:induction false} AskedOnce(o: Oracle, chain: seq<Entry>, budget: int, e: Entry)
    requires NoDuplicates(chain)
    ensures RequestsTo(AskAll(o, chain, budget), e) == if e in chain then |Budgets(o, e, budget)| else 0
    ensures RequestsTo(AskAll(o, chain, budget), e) <= 3
    ensures RequestsTo(AskAll(o, chain, budget), e) > 0 <==> e in chain
  {
    AtMostThree(o, e, budget);
    if chain != [] {
      RequestsToAppend(Pairs(chain[0], Budgets(o, chain[0], budget)), AskAll(o, chain[1..], budget), e);
      RequestsToPairs(chain[0], Budgets(o, chain[0], budget), e);
      AskedOnce(o, chain[1..], budget, e);
    }
  }
}
