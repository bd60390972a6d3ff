/**
 * The entry point: builds the location tables and the reward matrix, boosts
 * the goal, learns a Q table from injected random choices and extracts the
 * greedy route from the start label to the end label.
 */
module OptimalRoute {
  import opened Tables
  import opened Locations
  import opened Rewards
  import opened Learning
  import opened Route

  /**
   * `x` and `y` are known labels and moving from `x` to `y` follows an edge
   * of the base reward table, or lands on the first label, which is where
   * the first-max rule sends a row that learning never touched.
   */
  ghost predicate EdgeOrFirst(labels: seq<string>, base: seq<seq<int>>, x: string, y: string)
    requires |labels| == N && IsTable(base)
  {
    && x in labels
    && y in labels
    && (base[IndexOf(labels, x)][IndexOf(labels, y)] > 0 || y == labels[0])
  }

  /**
   * `route` leads from `start` to `end` through known labels, meets `end`
   * only at its last label, and every move follows an edge of the base
   * table or lands on the first label.
   */
  ghost predicate IsRoute(labels: seq<string>, base: seq<seq<int>>, start: string, end: string, route: seq<string>)
    requires |labels| == N && IsTable(base)
  {
    && |route| > 0
    && route[0] == start
    && route[|route| - 1] == end
    && (forall i :: 0 <= i < |route| ==> route[i] in labels)
    && (forall i :: 0 <= i < |route| - 1 ==> route[i] != end && EdgeOrFirst(labels, base, route[i], route[i + 1]))
  }

  /** Learning for goal `end` is defined: a known goal, a base table and choices playable under its boost. */
  ghost predicate Learnable(labels: seq<string>, base: seq<seq<int>>, end: string, states: seq<int>, actions: seq<int>)
  {
    && |labels| == N && IsTable(base) && end in labels
    && PicksPlayable(Boost(base, IndexOf(labels, end)), states, actions)
  }

  /** The learning setting of the lemmas: distinct labels and a convex update with a non-negative discount. */
  ghost predicate Trained(labels: seq<string>, base: seq<seq<int>>, end: string,
                          states: seq<int>, actions: seq<int>, gamma: real, alpha: real)
  {
    && Learnable(labels, base, end, states, actions) && Distinct(labels)
    && 0.0 < alpha <= 1.0 && 0.0 <= gamma
  }

  /** The table learned for goal `end`. */
  ghost function Learned(labels: seq<string>, base: seq<seq<int>>, end: string,
                         states: seq<int>, actions: seq<int>, gamma: real, alpha: real): (T: seq<seq<real>>)
    requires Learnable(labels, base, end, states, actions)
    ensures IsTable(T)
  {
    Train(Boost(base, IndexOf(labels, end)), states, actions, gamma, alpha)
  }

  /** `route` is a greedy walk over the table learned for `end`, read through the label-to-state table and its inverse. */
  ghost predicate LearnedWalk(labels: seq<string>, base: seq<seq<int>>, end: string,
                              states: seq<int>, actions: seq<int>, gamma: real, alpha: real, route: seq<string>)
    requires Learnable(labels, base, end, states, actions)
  {
    GreedyWalk(Learned(labels, base, end, states, actions, gamma, alpha),
               LocationTable(labels), StateToLocation(LocationTable(labels)), route, end)
  }

  /**
   * One greedy move over a learned table, from a label other than the goal,
   * follows an edge of the base table or lands on the first label.
   */
  lemma LearnedStepFollowsEdge(labels: seq<string>, base: seq<seq<int>>, end: string,
                               states: seq<int>, actions: seq<int>, gamma: real, alpha: real,
                               toState: map<string, int>, x: string, y: string)
    requires Trained(labels, base, end, states, actions, gamma, alpha)
    requires IsLocationTable(labels, toState) && Injective(toState)
    requires GreedyStep(Learned(labels, base, end, states, actions, gamma, alpha),
                        toState, StateToLocation(toState), x, y)
    requires x != end
    ensures EdgeOrFirst(labels, base, x, y)
  {
    var goal := IndexOf(labels, end);
    var R := Boost(base, goal);
    var T := Train(R, states, actions, gamma, alpha);
    LocationTablesInverse(labels, toState);
    var s := toState[x];
    var k := ArgMax(T[s]);
    assert y == labels[k];
    assert IndexOf(labels, y) == k;
    assert s != goal;
    TrainedGreedyChoice(R, states, actions, gamma, alpha, s);
  }

  /** Every label of a greedy walk over a learned table is a known label, and every move follows an edge or lands on the first label. */
  lemma LearnedWalkFollowsEdges(labels: seq<string>, base: seq<seq<int>>, start: string, end: string,
                                states: seq<int>, actions: seq<int>, gamma: real, alpha: real,
                                toState: map<string, int>, route: seq<string>)
    requires Trained(labels, base, end, states, actions, gamma, alpha)
    requires IsLocationTable(labels, toState) && Injective(toState)
    requires GreedyWalk(Learned(labels, base, end, states, actions, gamma, alpha),
                        toState, StateToLocation(toState), route, end)
    requires route[0] == start && route[|route| - 1] == end && start in labels
    ensures IsRoute(labels, base, start, end, route)
  {
    forall i | 0 <= i < |route| - 1
      ensures EdgeOrFirst(labels, base, route[i], route[i + 1])
    {
      LearnedStepFollowsEdge(labels, base, end, states, actions, gamma, alpha, toState, route[i], route[i + 1]);
    }
    forall i | 0 <= i < |route| ensures route[i] in labels {
      if i > 0 {
        assert EdgeOrFirst(labels, base, route[i - 1], route[(i - 1) + 1]);
      }
    }
  }

  /**
   * The learned route from `start` to `end` over the locations `labels` and
   * the base reward table `base`. Iteration `i` of learning samples
   * `states[i]` and moves to `actions[i]`; the walk over the learned table
   * is cut off after `maxSteps` moves.
   */
  method OptimalRouteOver(labels: seq<string>, base: seq<seq<int>>, gamma: real, alpha: real,
                          start: string, end: string, states: seq<int>, actions: seq<int>, maxSteps: nat)
    returns (r: Result<seq<string>>)
    requires |labels| == N && Distinct(labels) && IsTable(base)
    requires 0.0 < alpha <= 1.0 && 0.0 <= gamma
    requires end in labels ==> PicksPlayable(Boost(base, IndexOf(labels, end)), states, actions)
    ensures end !in labels ==> r == Err(UnknownLocation(end))
    ensures end in labels && start == end ==> r == Ok([start])
    ensures end in labels && start != end && start !in labels ==> r == Err(UnknownLocation(start))
    ensures r.Err? && r.error.UnknownLocation? ==>
              r.error.location !in labels && (r.error.location == end || r.error.location == start)
    ensures r.Ok? ==> IsRoute(labels, base, start, end, r.value)
    ensures r.Ok? && end in labels ==>
              |r.value| <= maxSteps + 1 && LearnedWalk(labels, base, end, states, actions, gamma, alpha, r.value)
    ensures r.Err? && r.error.StepBoundExceeded? ==>
              && |r.error.partial| == maxSteps + 1
              && r.error.partial[0] == start
              && end !in r.error.partial
    ensures r.Err? && r.error.StepBoundExceeded? && end in labels ==>
              LearnedWalk(labels, base, end, states, actions, gamma, alpha, r.error.partial)
  {
    var toState := BuildLocationToState(labels);
    var toLocation := StateToLocation(toState);
    if end !in toState {
      return Err(UnknownLocation(end));
    }
    r := RouteToKnownGoal(labels, base, gamma, alpha, start, end, states, actions, maxSteps, toState, toLocation);
  }

  /** Copies the base rewards into an array and learns for the goal state `goal` of `end`. */
  method LearnForEnd(labels: seq<string>, base: seq<seq<int>>, gamma: real, alpha: real,
                     end: string, states: seq<int>, actions: seq<int>, goal: int)
    returns (Q: array2<real>)
    requires Learnable(labels, base, end, states, actions) && goal == IndexOf(labels, end)
    ensures Q.Length0 == N && Q.Length1 == N
    ensures Grid(Q) == Learned(labels, base, end, states, actions, gamma, alpha)
  {
    var rewards := new int[N, N]((i, j) requires 0 <= i < N && 0 <= j < N => base[i][j]);
    GridEquals(rewards, base);
    Q := TrainForGoal(rewards, goal, states, actions, gamma, alpha);
  }

  /**
   * The part of the route search after the end label has been looked up:
   * copies the base rewards into an array, learns for the goal and walks the
   * learned table from `start`.
   */
  method RouteToKnownGoal(labels: seq<string>, base: seq<seq<int>>, gamma: real, alpha: real,
                          start: string, end: string, states: seq<int>, actions: seq<int>, maxSteps: nat,
                          toState: map<string, int>, toLocation: map<int, string>)
    returns (r: Result<seq<string>>)
    requires Trained(labels, base, end, states, actions, gamma, alpha)
    requires toState == LocationTable(labels) && toLocation == StateToLocation(toState)
    ensures start == end ==> r == Ok([start])
    ensures start != end && start !in labels ==> r == Err(UnknownLocation(start))
    ensures r.Err? && r.error.UnknownLocation? ==> r.error.location == start && start !in labels
    ensures r.Ok? ==>
              && IsRoute(labels, base, start, end, r.value)
              && |r.value| <= maxSteps + 1
              && LearnedWalk(labels, base, end, states, actions, gamma, alpha, r.value)
    ensures r.Err? && r.error.StepBoundExceeded? ==>
              && |r.error.partial| == maxSteps + 1
              && r.error.partial[0] == start
              && end !in r.error.partial
              && LearnedWalk(labels, base, end, states, actions, gamma, alpha, r.error.partial)
  {
    LocationTablesInverse(labels, toState);
    var Q := LearnForEnd(labels, base, gamma, alpha, end, states, actions, toState[end]);
    r := ExtractRoute(Q, toState, toLocation, start, end, maxSteps);
    if r.Ok? {
      LearnedWalkFollowsEdges(labels, base, start, end, states, actions, gamma, alpha, toState, r.value);
    }
  }

  /**
   * The route from `start` to `end` over the nine grid locations and their
   * adjacency rewards, learned in Iterations steps with discount Gamma and
   * learning rate Alpha.
   */
  method GetOptimalRoute(start: string, end: string, states: seq<int>, actions: seq<int>, maxSteps: nat)
    returns (r: Result<seq<string>>)
    requires end in Labels ==>
               |states| == Iterations && PicksPlayable(Boost(RewardTable, IndexOf(Labels, end)), states, actions)
    ensures end !in Labels ==> r == Err(UnknownLocation(end))
    ensures end in Labels && start == end ==> r == Ok([start])
    ensures end in Labels && start != end && start !in Labels ==> r == Err(UnknownLocation(start))
    ensures r.Err? && r.error.UnknownLocation? ==>
              r.error.location !in Labels && (r.error.location == end || r.error.location == start)
    ensures r.Ok? ==> IsRoute(Labels, RewardTable, start, end, r.value)
    ensures r.Ok? && end in Labels ==>
              |r.value| <= maxSteps + 1 && LearnedWalk(Labels, RewardTable, end, states, actions, Gamma, Alpha, r.value)
    ensures r.Err? && r.error.StepBoundExceeded? ==>
              && |r.error.partial| == maxSteps + 1
              && r.error.partial[0] == start
              && end !in r.error.partial
    ensures r.Err? && r.error.StepBoundExceeded? && end in Labels ==>
              LearnedWalk(Labels, RewardTable, end, states, actions, Gamma, Alpha, r.error.partial)
  {
    LabelsDistinct();
    r := OptimalRouteOver(Labels, RewardTable, Gamma, Alpha, start, end, states, actions, maxSteps);
  }
}
