/**
 * Tabular Q-learning over the goal-boosted reward table: the first-max
 * argmax, one temporal-difference update, and the learning loop driven by
 * injected state and action choices.
 */
module Learning {
  import opened Tables
  import opened Rewards

  /** Discount factor of the concrete instance. */
  const Gamma: real := 0.75
  /** Learning rate of the concrete instance. */
  const Alpha: real := 0.9
  /** Number of learning iterations of the concrete instance. */
  const Iterations := 1000

  /** The index of the first largest entry of `row` (numpy's argmax). */
  function ArgMax(row: seq<real>): (k: int)
    requires |row| > 0
    ensures 0 <= k < |row|
    ensures forall j :: 0 <= j < |row| ==> row[j] <= row[k]
    ensures forall j :: 0 <= j < k ==> row[j] < row[k]
  {
    if |row| == 1 then 0
    else
      var k := ArgMax(row[..|row| - 1]);
      if row[|row| - 1] > row[k] then |row| - 1 else k
  }

  /** The all-zero Q table. */
  function Zero(): (z: seq<seq<real>>)
    ensures IsTable(z)
    ensures forall s, a :: 0 <= s < N && 0 <= a < N ==> z[s][a] == 0.0
  {
    seq(N, _ => seq(N, _ => 0.0))
  }

  /**
   * One temporal-difference update of `T` for moving from `cs` to `ns`:
   * only the cell `[cs][ns]` changes, by `alpha` times the difference
   * between the bootstrapped target (reward plus `gamma` times the best
   * value of `ns`) and its old value.
   */
  function Step(T: seq<seq<real>>, R: seq<seq<int>>, cs: int, ns: int, gamma: real, alpha: real): (T': seq<seq<real>>)
    requires IsTable(T) && IsTable(R) && 0 <= cs < N && 0 <= ns < N
    ensures IsTable(T')
    ensures T'[cs][ns] == T[cs][ns] + alpha * (R[cs][ns] as real + gamma * T[ns][ArgMax(T[ns])] - T[cs][ns])
    ensures forall s, a :: 0 <= s < N && 0 <= a < N && (s != cs || a != ns) ==> T'[s][a] == T[s][a]
  {
    var td := R[cs][ns] as real + gamma * T[ns][ArgMax(T[ns])] - T[cs][ns];
    T[cs := T[cs][ns := T[cs][ns] + alpha * td]]
  }

  /** Every injected choice is a state and an action in range. */
  ghost predicate InRange(states: seq<int>, actions: seq<int>)
  {
    |states| == |actions| &&
    forall i :: 0 <= i < |states| ==> 0 <= states[i] < N && 0 <= actions[i] < N
  }

  /** Every injected action is playable from its state under `R`. */
  ghost predicate PicksPlayable(R: seq<seq<int>>, states: seq<int>, actions: seq<int>)
  {
    IsTable(R) && InRange(states, actions) &&
    forall i :: 0 <= i < |states| ==> R[states[i]][actions[i]] > 0
  }

  /** The Q table after the updates for the choices `states[i]`, `actions[i]`, in order, from all zeros. */
  function Train(R: seq<seq<int>>, states: seq<int>, actions: seq<int>, gamma: real, alpha: real): (T: seq<seq<real>>)
    requires IsTable(R) && InRange(states, actions)
    ensures IsTable(T)
    decreases |states|
  {
    if |states| == 0 then Zero()
    else
      var n := |states| - 1;
      Step(Train(R, states[..n], actions[..n], gamma, alpha), R, states[n], actions[n], gamma, alpha)
  }

  /** Only cells with a positive reward hold a non-zero value. */
  ghost predicate ZeroOffEdges(T: seq<seq<real>>, R: seq<seq<int>>)
    requires IsTable(T) && IsTable(R)
  {
    forall s, a :: 0 <= s < N && 0 <= a < N && T[s][a] != 0.0 ==> R[s][a] > 0
  }

  ghost predicate NonNegative(T: seq<seq<real>>)
    requires IsTable(T)
  {
    forall s, a :: 0 <= s < N && 0 <= a < N ==> T[s][a] >= 0.0
  }

  /** Learning only writes to playable pairs, so the zero pattern of Q follows the reward table. */
  lemma {:induction false} TrainZeroOffEdges(R: seq<seq<int>>, states: seq<int>, actions: seq<int>, gamma: real, alpha: real)
    requires PicksPlayable(R, states, actions)
    ensures ZeroOffEdges(Train(R, states, actions, gamma, alpha), R)
  {
    if |states| > 0 {
      var n := |states| - 1;
      TrainZeroOffEdges(R, states[..n], actions[..n], gamma, alpha);
    }
  }

  /** Moving a non-negative value a fraction `alpha` of the way towards a non-negative target keeps it non-negative. */
  lemma ConvexStepNonNegative(q: real, target: real, alpha: real)
    requires 0.0 <= q && 0.0 <= target && 0.0 < alpha <= 1.0
    ensures q + alpha * (target - q) >= 0.0
  {
    var d := target - q;
    if d < 0.0 {
      assert (1.0 - alpha) * (-d) >= 0.0;
      assert alpha * d == (1.0 - alpha) * (-d) + d;
    } else {
      assert alpha * d >= 0.0;
    }
  }

  /** One update of a non-negative table along a non-negative reward keeps it non-negative. */
  lemma StepNonNegative(T: seq<seq<real>>, R: seq<seq<int>>, cs: int, ns: int, gamma: real, alpha: real)
    requires IsTable(T) && IsTable(R) && 0 <= cs < N && 0 <= ns < N
    requires NonNegative(T) && R[cs][ns] >= 0
    requires 0.0 < alpha <= 1.0 && 0.0 <= gamma
    ensures NonNegative(Step(T, R, cs, ns, gamma, alpha))
  {
    var q := T[cs][ns];
    var m := T[ns][ArgMax(T[ns])];
    var r := R[cs][ns] as real;
    assert 0.0 <= gamma * m;
    var target := r + gamma * m;
    assert q + alpha * (r + gamma * m - q) == q + alpha * (target - q);
    ConvexStepNonNegative(q, target, alpha);
  }

  /** With alpha in (0, 1] and gamma non-negative, every learned value stays non-negative. */
  lemma {:induction false} TrainNonNegative(R: seq<seq<int>>, states: seq<int>, actions: seq<int>, gamma: real, alpha: real)
    requires PicksPlayable(R, states, actions)
    requires 0.0 < alpha <= 1.0 && 0.0 <= gamma
    ensures NonNegative(Train(R, states, actions, gamma, alpha))
  {
    if |states| > 0 {
      var n := |states| - 1;
      TrainNonNegative(R, states[..n], actions[..n], gamma, alpha);
      StepNonNegative(Train(R, states[..n], actions[..n], gamma, alpha), R, states[n], actions[n], gamma, alpha);
    }
  }

  /**
   * The greedy choice from a learned row: when its maximum is positive it
   * follows a pair with positive reward; otherwise the row is all zero and
   * the first-max rule picks state 0.
   */
  lemma TrainedGreedyChoice(R: seq<seq<int>>, states: seq<int>, actions: seq<int>, gamma: real, alpha: real, s: int)
    requires PicksPlayable(R, states, actions)
    requires 0.0 < alpha <= 1.0 && 0.0 <= gamma && 0 <= s < N
    ensures var T := Train(R, states, actions, gamma, alpha);
            T[s][ArgMax(T[s])] > 0.0 ==> R[s][ArgMax(T[s])] > 0
    ensures var T := Train(R, states, actions, gamma, alpha);
            R[s][ArgMax(T[s])] > 0 || (ArgMax(T[s]) == 0 && forall a :: 0 <= a < N ==> T[s][a] == 0.0)
  {
    var T := Train(R, states, actions, gamma, alpha);
    TrainZeroOffEdges(R, states, actions, gamma, alpha);
    TrainNonNegative(R, states, actions, gamma, alpha);
    var k := ArgMax(T[s]);
    if T[s][k] <= 0.0 {
      forall a | 0 <= a < N ensures T[s][a] == 0.0 {
        assert 0.0 <= T[s][a] <= T[s][k];
      }
      assert T[s][0] >= 0.0;
    }
  }

  /** Training on one more choice applies one more update. */
  lemma TrainPrefixStep(R: seq<seq<int>>, states: seq<int>, actions: seq<int>, i: int, gamma: real, alpha: real)
    requires IsTable(R) && InRange(states, actions) && 0 <= i < |states|
    ensures Train(R, states[..i + 1], actions[..i + 1], gamma, alpha)
         == Step(Train(R, states[..i], actions[..i], gamma, alpha), R, states[i], actions[i], gamma, alpha)
  {
    assert states[..i + 1][..i] == states[..i];
    assert actions[..i + 1][..i] == actions[..i];
  }

  /** Applies one temporal-difference update to `Q` in place. */
  method TdUpdate(Q: array2<real>, boosted: array2<int>, cs: int, ns: int, gamma: real, alpha: real)
    requires Q.Length0 == N && Q.Length1 == N && boosted.Length0 == N && boosted.Length1 == N
    requires 0 <= cs < N && 0 <= ns < N
    modifies Q
    ensures Grid(Q) == Step(old(Grid(Q)), Grid(boosted), cs, ns, gamma, alpha)
  {
    ghost var before := Grid(Q);
    var td := boosted[cs, ns] as real + gamma * Q[ns, ArgMax(Grid(Q)[ns])] - Q[cs, ns];
    Q[cs, ns] := Q[cs, ns] + alpha * td;
    ghost var after := Step(before, Grid(boosted), cs, ns, gamma, alpha);
    forall i | 0 <= i < N ensures Grid(Q)[i] == after[i] {
      assert forall j :: 0 <= j < N ==> Grid(Q)[i][j] == after[i][j];
    }
  }

  /**
   * The learning loop: starting from an all-zero Q, iteration `i` takes the
   * state `states[i]`, collects its playable actions, moves to `actions[i]`
   * and applies one temporal-difference update.
   */
  method Learn(boosted: array2<int>, states: seq<int>, actions: seq<int>, gamma: real, alpha: real) returns (Q: array2<real>)
    requires boosted.Length0 == N && boosted.Length1 == N
    requires |states| == |actions|
    requires forall i :: 0 <= i < |states| ==>
               0 <= states[i] < N && 0 <= actions[i] < N && boosted[states[i], actions[i]] > 0
    ensures Q.Length0 == N && Q.Length1 == N
    ensures Grid(Q) == Train(Grid(boosted), states, actions, gamma, alpha)
    ensures ZeroOffEdges(Grid(Q), Grid(boosted))
    ensures 0.0 < alpha <= 1.0 && 0.0 <= gamma ==> NonNegative(Grid(Q))
  {
    ghost var R := Grid(boosted);
    Q := new real[N, N]((i, j) => 0.0);
    GridEquals(Q, Zero());
    for i := 0 to |states|
      invariant Q.Length0 == N && Q.Length1 == N
      invariant Grid(Q) == Train(R, states[..i], actions[..i], gamma, alpha)
    {
      var currentState := states[i];
      var playable := PlayableActions(boosted, currentState);
      var nextState := actions[i];
      assert nextState in playable;
      TdUpdate(Q, boosted, currentState, nextState, gamma, alpha);
      TrainPrefixStep(R, states, actions, i, gamma, alpha);
    }
    assert states[..|states|] == states && actions[..|actions|] == actions;
    assert PicksPlayable(R, states, actions);
    TrainZeroOffEdges(R, states, actions, gamma, alpha);
    if 0.0 < alpha <= 1.0 && 0.0 <= gamma {
      TrainNonNegative(R, states, actions, gamma, alpha);
    }
  }

  /**
   * Learning for one goal: copies the reward matrix with the goal's own cell
   * boosted, then runs the learning loop over the copy.
   */
  method TrainForGoal(rewards: array2<int>, goal: int, states: seq<int>, actions: seq<int>, gamma: real, alpha: real)
    returns (Q: array2<real>)
    requires rewards.Length0 == N && rewards.Length1 == N && 0 <= goal < N
    requires PicksPlayable(Boost(Grid(rewards), goal), states, actions)
    ensures Q.Length0 == N && Q.Length1 == N
    ensures Grid(Q) == Train(Boost(Grid(rewards), goal), states, actions, gamma, alpha)
  {
    var boosted := BoostedCopy(rewards, goal);
    Q := Learn(boosted, states, actions, gamma, alpha);
  }
}
