/**
 * Route extraction: the greedy walk over a learned Q table, from the start
 * label until the end label is reached.
 */
module Route {
  import opened Tables
  import opened Learning

  datatype RouteError =
    | UnknownLocation(location: string)
      /** The walk took `partial` (maxSteps moves) without reaching the end label. */
    | StepBoundExceeded(partial: seq<string>)

  datatype Result<T> = Ok(value: T) | Err(error: RouteError)

  /** From label `x` the greedy walk moves to label `y`: the label of the first-max action of `x`'s row. */
  ghost predicate GreedyStep(T: seq<seq<real>>, toState: map<string, int>, toLocation: map<int, string>, x: string, y: string)
    requires IsTable(T)
  {
    && x in toState
    && 0 <= toState[x] < N
    && var k := ArgMax(T[toState[x]]);
       k in toLocation && toLocation[k] == y
  }

  /** `route` is a greedy walk that meets `end` at most at its last label. */
  ghost predicate GreedyWalk(T: seq<seq<real>>, toState: map<string, int>, toLocation: map<int, string>, route: seq<string>, end: string)
    requires IsTable(T)
  {
    && |route| > 0
    && forall i :: 0 <= i < |route| - 1 ==>
         route[i] != end && GreedyStep(T, toState, toLocation, route[i], route[i + 1])
  }

  /**
   * Walks `Q` greedily from `start`: while the current label is not `end`,
   * looks up its state, moves to the first-max action of that row and
   * appends the action's label. The walk is cut off after `maxSteps` moves.
   */
  method ExtractRoute(Q: array2<real>, toState: map<string, int>, toLocation: map<int, string>,
                      start: string, end: string, maxSteps: nat) returns (r: Result<seq<string>>)
    requires Q.Length0 == N && Q.Length1 == N
    requires forall x :: x in toState ==> 0 <= toState[x] < N
    requires forall s :: 0 <= s < N ==> s in toLocation && toLocation[s] in toState
    ensures start == end ==> r == Ok([start])
    ensures start != end && start !in toState ==> r == Err(UnknownLocation(start))
    ensures r.Ok? ==>
              && |r.value| > 0
              && r.value[0] == start
              && r.value[|r.value| - 1] == end
              && |r.value| <= maxSteps + 1
              && GreedyWalk(Grid(Q), toState, toLocation, r.value, end)
    ensures r.Err? && r.error.UnknownLocation? ==>
              start != end && start !in toState && r.error.location == start
    ensures r.Err? && r.error.StepBoundExceeded? ==>
              && |r.error.partial| == maxSteps + 1
              && r.error.partial[0] == start
              && end !in r.error.partial
              && GreedyWalk(Grid(Q), toState, toLocation, r.error.partial, end)
  {
    var route := [start];
    var current := start;
    var steps := 0;
    while current != end
      invariant 0 <= steps <= maxSteps
      invariant |route| == steps + 1 && route[0] == start && route[steps] == current
      invariant forall i :: 0 <= i < steps ==> route[i] != end
      invariant GreedyWalk(Grid(Q), toState, toLocation, route, end)
      invariant steps > 0 ==> start in toState && current in toState
      decreases maxSteps - steps
    {
      if current !in toState {
        return Err(UnknownLocation(current));
      }
      if steps == maxSteps {
        return Err(StepBoundExceeded(route));
      }
      var state := toState[current];
      var next := toLocation[ArgMax(Grid(Q)[state])];
      route := route + [next];
      current := next;
      steps := steps + 1;
    }
    assert start == end ==> route == [start];
    return Ok(route);
  }

  /** Two greedy walks from the same label agree on every position both have. */
  lemma {:induction false} GreedyWalksAgree(T: seq<seq<real>>, toState: map<string, int>, toLocation: map<int, string>,
                                          r1: seq<string>, r2: seq<string>, end: string, i: nat)
    requires IsTable(T)
    requires GreedyWalk(T, toState, toLocation, r1, end) && GreedyWalk(T, toState, toLocation, r2, end)
    requires r1[0] == r2[0] && i < |r1| && i < |r2|
    ensures r1[i] == r2[i]
  {
    if i > 0 {
      GreedyWalksAgree(T, toState, toLocation, r1, r2, end, i - 1);
      assert GreedyStep(T, toState, toLocation, r1[i - 1], r1[i]);
      assert GreedyStep(T, toState, toLocation, r2[i - 1], r2[i]);
    }
  }

  /** The returned route is determined by the table: two greedy walks from one label to `end` are equal. */
  lemma GreedyWalkUnique(T: seq<seq<real>>, toState: map<string, int>, toLocation: map<int, string>,
                         r1: seq<string>, r2: seq<string>, end: string)
    requires IsTable(T)
    requires GreedyWalk(T, toState, toLocation, r1, end) && GreedyWalk(T, toState, toLocation, r2, end)
    requires r1[0] == r2[0] && r1[|r1| - 1] == end && r2[|r2| - 1] == end
    ensures r1 == r2
  {
    if |r1| < |r2| {
      GreedyWalksAgree(T, toState, toLocation, r1, r2, end, |r1| - 1);
    } else if |r2| < |r1| {
      GreedyWalksAgree(T, toState, toLocation, r1, r2, end, |r2| - 1);
    }
    forall i | 0 <= i < |r1| ensures r1[i] == r2[i] {
      GreedyWalksAgree(T, toState, toLocation, r1, r2, end, i);
    }
  }

  /**
   * A greedy walk that reaches `end` is longer than any greedy walk from the
   * same label that avoids `end`: a run of the walk either reaches `end`
   * within the bound or exceeds it, never both.
   */
  lemma GreedyOutcomesExclusive(T: seq<seq<real>>, toState: map<string, int>, toLocation: map<int, string>,
                                route: seq<string>, partial: seq<string>, end: string)
    requires IsTable(T)
    requires GreedyWalk(T, toState, toLocation, route, end) && GreedyWalk(T, toState, toLocation, partial, end)
    requires route[0] == partial[0] && route[|route| - 1] == end && end !in partial
    ensures |partial| < |route|
  {
    if |route| <= |partial| {
      GreedyWalksAgree(T, toState, toLocation, route, partial, end, |route| - 1);
    }
  }
}
