/**
 * The reward environment: the fixed adjacency matrix of the grid, its
 * goal-boosted copy and the playable actions of a state.
 */
module Rewards {
  import opened Tables

  /** An N by N table of integer rewards. */
  type RewardMatrix = R: seq<seq<int>> | IsTable(R) witness seq(N, _ => seq(N, _ => 0))

  /**
   * Immediate reward for moving from the row's state to the column's state:
   * 1 along a directed edge of the grid graph, 0 elsewhere. The table is not
   * symmetric: row 4 (L5) reaches column 1 (L2), but row 1 does not reach column 4.
   */
  const RewardTable: RewardMatrix := [
    [0, 1, 0, 0, 0, 0, 0, 0, 0],
    [1, 0, 1, 0, 0, 0, 0, 0, 0],
    [0, 1, 0, 0, 0, 1, 0, 0, 0],
    [0, 0, 0, 0, 0, 0, 1, 0, 0],
    [0, 1, 0, 0, 0, 0, 0, 1, 0],
    [0, 0, 1, 0, 0, 0, 0, 0, 0],
    [0, 0, 0, 1, 0, 0, 0, 1, 0],
    [0, 0, 0, 0, 1, 0, 1, 0, 1],
    [0, 0, 0, 0, 0, 0, 0, 1, 0]
  ]

  /** The reward the boosted copy puts on the goal's own diagonal cell. */
  const GoalReward := 999

  /** The goal-boosted reward table: `R` with only its `[goal][goal]` cell replaced. */
  function Boost(R: seq<seq<int>>, goal: int): (B: seq<seq<int>>)
    requires IsTable(R) && 0 <= goal < N
    ensures IsTable(B)
    ensures B[goal][goal] == GoalReward
    ensures forall i, j :: 0 <= i < N && 0 <= j < N && (i != goal || j != goal) ==> B[i][j] == R[i][j]
  {
    R[goal := R[goal][goal := GoalReward]]
  }

  /**
   * Copies the reward matrix and sets the goal's diagonal entry of the copy
   * to GoalReward. The base matrix is only read.
   */
  method BoostedCopy(rewards: array2<int>, goal: int) returns (boosted: array2<int>)
    requires rewards.Length0 == N && rewards.Length1 == N && 0 <= goal < N
    ensures boosted.Length0 == N && boosted.Length1 == N
    ensures Grid(boosted) == Boost(Grid(rewards), goal)
  {
    boosted := new int[N, N]((i, j) reads rewards requires 0 <= i < N && 0 <= j < N => rewards[i, j]);
    boosted[goal, goal] := GoalReward;
    ghost var B := Boost(Grid(rewards), goal);
    forall i | 0 <= i < N ensures Grid(boosted)[i] == B[i] {
      assert forall j :: 0 <= j < N ==> Grid(boosted)[i][j] == B[i][j];
    }
  }

  /**
   * The playable actions of state `s`: every column of its row with a
   * positive boosted reward, in ascending order.
   */
  method PlayableActions(boosted: array2<int>, s: int) returns (acts: seq<int>)
    requires boosted.Length0 == N && boosted.Length1 == N && 0 <= s < N
    ensures forall k :: 0 <= k < |acts| ==> 0 <= acts[k] < N && boosted[s, acts[k]] > 0
    ensures forall k, l :: 0 <= k < l < |acts| ==> acts[k] < acts[l]
    ensures forall j :: 0 <= j < N && boosted[s, j] > 0 ==> j in acts
  {
    acts := [];
    for j := 0 to N
      invariant forall k :: 0 <= k < |acts| ==> 0 <= acts[k] < j && boosted[s, acts[k]] > 0
      invariant forall k, l :: 0 <= k < l < |acts| ==> acts[k] < acts[l]
      invariant forall j' :: 0 <= j' < j && boosted[s, j'] > 0 ==> j' in acts
    {
      if boosted[s, j] > 0 {
        acts := acts + [j];
      }
    }
  }

  /** A neighbour of each state in the grid graph. */
  function Neighbour(s: int): (a: int)
    requires 0 <= s < N
    ensures 0 <= a < N && a != s && RewardTable[s][a] > 0
  {
    [1, 0, 1, 6, 1, 2, 3, 4, 7][s]
  }

  /**
   * Whatever the goal, every state of the grid has a playable action, so
   * the random choice among the playable actions never faces an empty list.
   */
  lemma EveryStateHasPlayableAction(goal: int, s: int)
    requires 0 <= goal < N && 0 <= s < N
    ensures exists a :: 0 <= a < N && Boost(RewardTable, goal)[s][a] > 0
  {
    var a := Neighbour(s);
    assert Boost(RewardTable, goal)[s][a] > 0;
  }
}
