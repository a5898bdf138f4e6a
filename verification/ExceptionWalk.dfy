/**
 * Walking an exception's causes (forven/ai.py, _walk_exception_chain,
 * _is_request_too_large, _is_rate_limit_exception). Exceptions are nodes of a heap
 * whose cause links may form a cycle.
 */
module ExceptionWalk {
  import opened Basics
  import Text

  datatype Node = Node(
    status: Option<int>, responseStatus: Option<int>, message: string,
    cause: Option<nat>, context: Option<nat>)

  type Heap = map<nat, Node>

  /** Every link leads to an exception that exists. */
  predicate Closed(heap: Heap) {
    forall e :: e in heap ==> Linked(heap, heap[e])
  }

  predicate Linked(heap: Heap, n: Node) {
    (n.cause.Some? ==> n.cause.value in heap) && (n.context.Some? ==> n.context.value in heap)
  }

  /** `__cause__ or __context__`. */
  function Next(n: Node): Option<nat> {
    if n.cause.Some? then n.cause else n.context
  }

  lemma SeenGrows(heap: Heap, seen: set<nat>, c: nat)
    requires c in heap && c !in seen
    ensures |heap.Keys - (seen + {c})| < |heap.Keys - seen|
  {
    assert heap.Keys - seen == (heap.Keys - (seen + {c})) + {c};
  }

  /** The nodes yielded from `current` on, stopping at the first one seen before. */
  function Walk(heap: Heap, current: Option<nat>, seen: set<nat>): seq<nat>
    requires Closed(heap) && (current.Some? ==> current.value in heap)
    decreases |heap.Keys - seen|
  {
    if current.None? || current.value in seen then []
    else
      var c := current.value;
      SeenGrows(heap, seen, c);
      [c] + Walk(heap, Hop(heap, current), seen + {c})
  }

  method WalkExceptionChain(heap: Heap, error: nat) returns (nodes: seq<nat>)
    requires Closed(heap) && error in heap
    ensures nodes == Walk(heap, Some(error), {})
  {
    nodes := [];
    var seen: set<nat>, current := {}, Some(error);
    while current.Some?
      invariant current.Some? ==> current.value in heap
      invariant nodes + Walk(heap, current, seen) == Walk(heap, Some(error), {})
      decreases current.Some?, |heap.Keys - seen|
    {
      var c := current.value;
      if c in seen {
        return;
      }
      SeenGrows(heap, seen, c);
      nodes := nodes + [c];
      seen := seen + {c};
      current := Hop(heap, current);
    }
  }

  function Hop(heap: Heap, current: Option<nat>): (next: Option<nat>)
    requires Closed(heap) && (current.Some? ==> current.value in heap)
    ensures next.Some? ==> next.value in heap
  {
    match current
    case None => None
    case Some(c) => assert Linked(heap, heap[c]); Next(heap[c])
  }

  /** The `n`-th cause, following links for ever if they loop. */
  function Nth(heap: Heap, error: nat, n: nat): (c: Option<nat>)
    requires Closed(heap) && error in heap
    ensures c.Some? ==> c.value in heap
  {
    if n == 0 then Some(error) else Hop(heap, Nth(heap, error, n - 1))
  }

  lemma WalkHead(heap: Heap, current: Option<nat>, seen: set<nat>)
    requires Closed(heap) && current.Some? && current.value in heap && current.value !in seen
    ensures Walk(heap, current, seen) == [current.value] + Walk(heap, Hop(heap, current), seen + {current.value})
    ensures |heap.Keys - (seen + {current.value})| < |heap.Keys - seen|
  {
    SeenGrows(heap, seen, current.value);
  }

  /** Node `i` of the walk is the `i`-th cause. */
  lemma {:induction false} WalkTracks(heap: Heap, error: nat, n: nat, seen: set<nat>, i: nat)
    requires Closed(heap) && error in heap && i < |Walk(heap, Nth(heap, error, n), seen)|
    ensures Nth(heap, error, n + i) == Some(Walk(heap, Nth(heap, error, n), seen)[i])
    decreases i
  {
    var current := Nth(heap, error, n);
    WalkHead(heap, current, seen);
    if i > 0 {
      WalkTracks(heap, error, n + 1, seen + {current.value}, i - 1);
    }
  }

  ghost predicate NoRepeat(w: seq<nat>) {
    forall i, j :: 0 <= i < j < |w| ==> w[i] != w[j]
  }

  /** No node occurs twice or had been seen before. */
  lemma {:induction false} WalkIsFresh(heap: Heap, current: Option<nat>, seen: set<nat>)
    requires Closed(heap) && (current.Some? ==> current.value in heap)
    ensures var w := Walk(heap, current, seen); NoRepeat(w) && forall x :: x in w ==> x !in seen
    decreases |heap.Keys - seen|
  {
    if current.Some? && current.value !in seen {
      WalkHead(heap, current, seen);
      WalkIsFresh(heap, Hop(heap, current), seen + {current.value});
      var tail := Walk(heap, Hop(heap, current), seen + {current.value});
      assert current.value !in tail;
    }
  }

  /** Where the walk stops, the chain ends or returns to a node already met. */
  lemma {:induction false} WalkStops(heap: Heap, error: nat, n: nat, seen: set<nat>)
    requires Closed(heap) && error in heap
    ensures var w := Walk(heap, Nth(heap, error, n), seen);
            var stop := Nth(heap, error, n + |w|);
            stop.Some? ==> stop.value in seen || stop.value in w
    decreases |heap.Keys - seen|
  {
    var current := Nth(heap, error, n);
    if current.Some? && current.value !in seen {
      WalkHead(heap, current, seen);
      WalkStops(heap, error, n + 1, seen + {current.value});
      var tail := Walk(heap, Nth(heap, error, n + 1), seen + {current.value});
      assert n + (1 + |tail|) == n + 1 + |tail|;
    }
  }

  /** Beyond a repetition the causes only repeat. */
  lemma {:induction false} CausesRepeat(heap: Heap, error: nat, n: nat)
    requires Closed(heap) && error in heap
    ensures Nth(heap, error, n).Some? ==> Nth(heap, error, n).value in Walk(heap, Some(error), {})
  {
    var w := Walk(heap, Nth(heap, error, 0), {});
    if n < |w| {
      WalkTracks(heap, error, 0, {}, n);
    } else if n == |w| {
      WalkStops(heap, error, 0, {});
    } else {
      CausesRepeat(heap, error, n - 1);
      if Nth(heap, error, n - 1).Some? {
        var k :| 0 <= k < |w| && w[k] == Nth(heap, error, n - 1).value;
        WalkTracks(heap, error, 0, {}, k);
        assert Nth(heap, error, 0 + k) == Nth(heap, error, n - 1);
        assert Nth(heap, error, k + 1) == Nth(heap, error, n);
        CausesRepeat(heap, error, k + 1);
      }
    }
  }

  /** The walk terminates on every heap and yields exactly the reachable causes, each once, nearest first. */
  lemma WalkIsExact(heap: Heap, error: nat)
    requires Closed(heap) && error in heap
    ensures var w := Walk(heap, Some(error), {});
            && (forall i :: 0 <= i < |w| ==> Nth(heap, error, i) == Some(w[i]))
            && NoRepeat(w)
            && (forall n: nat :: Nth(heap, error, n).Some? ==> Nth(heap, error, n).value in w)
  {
    var w := Walk(heap, Nth(heap, error, 0), {});
    WalkIsFresh(heap, Some(error), {});
    forall i | 0 <= i < |w| ensures Nth(heap, error, i) == Some(w[i]) { WalkTracks(heap, error, 0, {}, i); }
    forall n: nat ensures Nth(heap, error, n).Some? ==> Nth(heap, error, n).value in w { CausesRepeat(heap, error, n); }
  }

  // ---- classifying ----

  predicate Contains(s: string, hint: string) {
    hint <= s || (s != "" && Contains(s[1..], hint))
  }

  predicate ContainsAny(s: string, hints: seq<string>) {
    hints != [] && (Contains(s, hints[0]) || ContainsAny(s, hints[1..]))
  }

  const TOO_LARGE_HINTS: seq<string> :=
    ["request too large", "reduce your message size", "too large for model", "request_too_large"]
  const RATE_LIMIT_HINTS: seq<string> :=
    ["429", "too many requests", "rate limit", "rate_limit", "quota", "quota exceeded", "insufficient_quota"]

  predicate SaysTooLarge(n: Node) {
    n.status == Some(413) || n.responseStatus == Some(413) || ContainsAny(Text.Lower(n.message), TOO_LARGE_HINTS)
  }

  predicate SaysRateLimit(n: Node) {
    n.status == Some(429) || n.responseStatus == Some(429) || ContainsAny(Text.Lower(n.message), RATE_LIMIT_HINTS)
  }

  /** Some cause, however far down the chain, satisfies `says`. */
  ghost predicate SomeCause(heap: Heap, error: nat, says: Node -> bool)
    requires Closed(heap) && error in heap
  {
    exists n: nat :: CauseSays(heap, error, n, says)
  }

  predicate CauseSays(heap: Heap, error: nat, n: nat, says: Node -> bool)
    requires Closed(heap) && error in heap
  {
    Nth(heap, error, n).Some? && says(heap[Nth(heap, error, n).value])
  }

  lemma NoCauseSays(heap: Heap, error: nat, nodes: seq<nat>, says: Node -> bool)
    requires Closed(heap) && error in heap
    requires forall n: nat :: Nth(heap, error, n).Some? ==> Nth(heap, error, n).value in nodes
    requires forall j :: 0 <= j < |nodes| ==> nodes[j] in heap && !says(heap[nodes[j]])
    ensures !SomeCause(heap, error, says)
  {
    forall n: nat ensures !CauseSays(heap, error, n, says) {
      if Nth(heap, error, n).Some? { assert Nth(heap, error, n).value in nodes; }
    }
  }

  /** The scan both classifiers make along the chain, stopping at the first node that says so. */
  method ScanCauses(heap: Heap, error: nat, says: Node -> bool) returns (yes: bool)
    requires Closed(heap) && error in heap
    ensures yes <==> SomeCause(heap, error, says)
  {
    var nodes := WalkExceptionChain(heap, error);
    WalkIsExact(heap, error);
    for i := 0 to |nodes|
      invariant forall j :: 0 <= j < i ==> nodes[j] in heap && !says(heap[nodes[j]])
    {
      assert Nth(heap, error, i) == Some(nodes[i]);
      if says(heap[nodes[i]]) {
        assert CauseSays(heap, error, i, says);
        return true;
      }
    }
    NoCauseSays(heap, error, nodes, says);
    return false;
  }

  method IsRequestTooLarge(heap: Heap, error: nat) returns (yes: bool)
    requires Closed(heap) && error in heap
    ensures yes <==> SomeCause(heap, error, SaysTooLarge)
  {
    yes := ScanCauses(heap, error, SaysTooLarge);
  }

  /** A rate limit is reported exactly when some cause says so and no cause says the request was too large. */
  method IsRateLimit(heap: Heap, error: nat) returns (yes: bool)
    requires Closed(heap) && error in heap
    ensures yes <==> SomeCause(heap, error, SaysRateLimit) && !SomeCause(heap, error, SaysTooLarge)
  {
    var tooLarge := IsRequestTooLarge(heap, error);
    if tooLarge {
      return false;
    }
    yes := ScanCauses(heap, error, SaysRateLimit);
  }
}
