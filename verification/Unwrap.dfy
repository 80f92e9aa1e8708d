/** _unwrap_internal_errors of infra/f1/local_material_rag_verify.py: a walk over the orig, __cause__
    and __context__ links of exceptions, which may form cycles. */
module Unwrap {

  /** The links of each exception, by identity; a link that is not an exception is -1. */
  datatype Links = Links(orig: int, cause: int, context: int)

  /** Exceptions are numbered; every link leads to one of them or nowhere. */
  predicate Graph(g: seq<Links>) {
    forall i :: 0 <= i < |g| ==> -1 <= g[i].orig < |g| && -1 <= g[i].cause < |g| && -1 <= g[i].context < |g|
  }

  predicate Edge(g: seq<Links>, a: nat, b: nat) {
    a < |g| && b < |g| && (g[a].orig == b || g[a].cause == b || g[a].context == b)
  }

  predicate Path(g: seq<Links>, p: seq<nat>) {
    p != [] && forall i :: 0 <= i < |p| - 1 ==> Edge(g, p[i], p[i + 1])
  }

  ghost predicate Reachable(g: seq<Links>, a: nat, b: nat) {
    exists p: seq<nat> :: Path(g, p) && p[0] == a && p[|p| - 1] == b
  }

  lemma {:induction false} ReachableSelf(g: seq<Links>, a: nat)
    ensures Reachable(g, a, a)
  {
    assert Path(g, [a]);
  }

  lemma {:induction false} ReachableStep(g: seq<Links>, a: nat, b: nat, c: nat)
    requires Reachable(g, a, b) && Edge(g, b, c)
    ensures Reachable(g, a, c)
  {
    var p: seq<nat> :| Path(g, p) && p[0] == a && p[|p| - 1] == b;
    var q := p + [c];
    forall i | 0 <= i < |q| - 1 ensures Edge(g, q[i], q[i + 1]) {
      if i < |p| - 1 {
        assert q[i] == p[i] && q[i + 1] == p[i + 1];
      }
    }
    assert Path(g, q);
  }

  /** A set that holds the start and follows every edge holds all that is reachable. */
  lemma {:induction false} ClosedHoldsReachable(g: seq<Links>, s: set<nat>, p: seq<nat>)
    requires Path(g, p) && p[0] in s
    requires forall a, b :: a in s && Edge(g, a, b) ==> b in s
    ensures p[|p| - 1] in s
    decreases |p|
  {
    if |p| > 1 {
      var q := p[..|p| - 1];
      forall i | 0 <= i < |q| - 1 ensures Edge(g, q[i], q[i + 1]) {
        assert Edge(g, p[i], p[i + 1]);
      }
      ClosedHoldsReachable(g, s, q);
      assert Edge(g, p[|p| - 2], p[|p| - 2 + 1]);
    }
  }

  predicate NoRepeats(xs: seq<nat>) {
    forall i, j :: 0 <= i < j < |xs| ==> xs[i] != xs[j]
  }

  function Push(stack: seq<nat>, link: int): seq<nat> {
    if link >= 0 then stack + [link] else stack
  }

  /** What the walk has seen is closed, but for what still waits on the stack. */
  ghost predicate Frontier(g: seq<Links>, seen: set<nat>, stack: seq<nat>) {
    forall a, b :: a in seen && Edge(g, a, b) ==> b in seen || b in stack
  }

  function Below(n: nat): set<nat> {
    if n == 0 then {} else Below(n - 1) + {n - 1}
  }

  lemma {:induction false} BelowSize(n: nat)
    ensures |Below(n)| == n && forall i: nat :: i in Below(n) <==> i < n
  {
    if n > 0 {
      BelowSize(n - 1);
    }
  }

  lemma {:induction false} SeenBounded(g: seq<Links>, seen: set<nat>)
    requires forall a :: a in seen ==> a < |g|
    ensures |seen| <= |g|
  {
    BelowSize(|g|);
    SubsetSize(seen, Below(|g|));
  }

  lemma {:induction false} SubsetSize(a: set<nat>, b: set<nat>)
    requires a <= b
    ensures |a| <= |b|
  {
    if a != {} {
      var x :| x in a;
      SubsetSize(a - {x}, b - {x});
    }
  }

  function Pushed(stack: seq<nat>, links: Links): seq<nat> {
    Push(Push(Push(stack, links.orig), links.cause), links.context)
  }

  lemma {:induction false} PushedHolds(g: seq<Links>, rest: seq<nat>, current: nat, b: nat)
    requires Graph(g) && current < |g|
    ensures b in Pushed(rest, g[current]) <==> b in rest || Edge(g, current, b)
  {
  }

  /** Everything seen or waiting is an exception that can be reached. */
  ghost predicate AllReachable(g: seq<Links>, error: nat, stack: seq<nat>) {
    forall a :: a in stack ==> a < |g| && Reachable(g, error, a)
  }

  lemma {:induction false} PopReachable(g: seq<Links>, error: nat, stack: seq<nat>)
    requires stack != [] && AllReachable(g, error, stack)
    ensures AllReachable(g, error, stack[..|stack| - 1])
    ensures stack[|stack| - 1] < |g| && Reachable(g, error, stack[|stack| - 1])
  {
    var n := |stack| - 1;
    assert stack[n] in stack;
    forall a | a in stack[..n] ensures a < |g| && Reachable(g, error, a) {
      var i :| 0 <= i < n && stack[..n][i] == a;
      assert stack[i] == a && stack[i] in stack;
    }
  }

  lemma {:induction false} PushedReachable(g: seq<Links>, error: nat, rest: seq<nat>, current: nat)
    requires Graph(g) && current < |g| && Reachable(g, error, current) && AllReachable(g, error, rest)
    ensures AllReachable(g, error, Pushed(rest, g[current]))
  {
    forall b | b in Pushed(rest, g[current]) ensures b < |g| && Reachable(g, error, b) {
      PushedHolds(g, rest, current, b);
      if Edge(g, current, b) {
        ReachableStep(g, error, current, b);
      }
    }
  }

  lemma {:induction false} FrontierNext(g: seq<Links>, seen: set<nat>, rest: seq<nat>, current: nat)
    requires Graph(g) && current < |g| && Frontier(g, seen, rest + [current])
    ensures Frontier(g, seen + {current}, Pushed(rest, g[current]))
  {
    forall a, b | a in seen + {current} && Edge(g, a, b) ensures b in seen + {current} || b in Pushed(rest, g[current]) {
      PushedHolds(g, rest, current, b);
    }
  }

  /** The walk ends on any graph, begins with the error it is given, and lists every exception that
      can be reached from it exactly once, and nothing else. */
  method UnwrapErrors(g: seq<Links>, error: nat) returns (ordered: seq<nat>)
    requires Graph(g) && error < |g|
    ensures |ordered| > 0 && ordered[0] == error
    ensures NoRepeats(ordered)
    ensures forall a :: a in ordered <==> Reachable(g, error, a)
  {
    var seen: set<nat> := {};
    ordered := [];
    var stack: seq<nat> := [error];
    ReachableSelf(g, error);
    while stack != []
      invariant AllReachable(g, error, stack) && AllReachable(g, error, ordered)
      invariant forall a :: a in ordered <==> a in seen
      invariant NoRepeats(ordered)
      invariant Frontier(g, seen, stack)
      invariant if ordered == [] then stack == [error] else ordered[0] == error
      invariant error in seen || error in stack
      invariant |seen| <= |g|
      decreases |g| - |seen|, |stack|
    {
      var current := stack[|stack| - 1];
      PopReachable(g, error, stack);
      assert stack == stack[..|stack| - 1] + [current];
      stack := stack[..|stack| - 1];
      if current !in seen {
        SeenBounded(g, seen + {current});
        PushedReachable(g, error, stack, current);
        FrontierNext(g, seen, stack, current);
        seen := seen + {current};
        ordered := ordered + [current];
        stack := Pushed(stack, g[current]);
      }
    }
    forall a | Reachable(g, error, a) ensures a in ordered {
      var p: seq<nat> :| Path(g, p) && p[0] == error && p[|p| - 1] == a;
      ClosedHoldsReachable(g, seen, p);
    }
  }
}
