# Q-learning route finder on a 9-location grid

A Dafny model of `get_optimal_route`. The function takes a start and an end
location label of a fixed 9-node grid graph (`L1` … `L9`) and does four things:

1. It builds a label-to-state table and its inverse.
2. It copies the 0/1 adjacency reward matrix, setting the goal's own diagonal
   cell of the copy to 999.
3. It runs 1000 iterations of tabular Q-learning on a 9×9 table. Each iteration
   picks a random state, picks a random playable action, and applies one
   temporal-difference update with discount 0.75 and learning rate 0.9.
4. It walks the learned table greedily from the start label: at each step it
   takes the first index that attains the row maximum, and it stops when it
   reaches the end label.

The model follows the code's own steps, one module per part:

- `Tables`: the size `N = 9`, `Grid` (the row-by-row contents of a
  two-dimensional array), and the 9×9 table shape.
- `Locations`: the labels and the label-to-state table. The table is filled in
  a loop and skips labels that are already present. The module also has the
  inverse table, and `IndexOf`, the first position of a label.
- `Rewards`: the literal adjacency matrix and the goal-boosted copy. The copy
  is an `array2` with one cell written. `Boost` is its specification. The
  module also has the playable-action filter, a loop that appends ascending
  column indices.
- `Learning`: numpy's first-max `ArgMax`, plus `Step` and `Train`. `Step` is
  one temporal-difference update on a table value. `Train` is the fold of
  `Step` over the injected choices. `TdUpdate` and `Learn` update a Q `array2`
  in place and are proved equal to `Step` and `Train`. The lemmas about
  `Train` are the loop invariants: the zero pattern of Q follows the rewards,
  and Q stays non-negative.
- `Route`: the greedy walk as a `while` loop that appends to the route.
  `GreedyStep` and `GreedyWalk` are its specification. Two lemmas show that the
  returned route, or the step-bound error, is determined by the table.
- `OptimalRoute`: the whole function. `OptimalRouteOver` takes the labels, the
  base matrix, gamma and alpha as parameters. After the end label is looked
  up, it hands over to `RouteToKnownGoal`, which learns through `LearnForEnd`
  and then walks. `GetOptimalRoute` fixes them to
  the literal labels and matrix, 0.75 and 0.9, with 1000 iterations.

Q values are `real`. The random draws are inputs, `states[i]` and
`actions[i]`, one pair per iteration. Every action must be playable from its
state in the boosted matrix; this is the only thing the random choice can
produce. A missing dictionary key (Python's `KeyError`) becomes
`Err(UnknownLocation(label))`.

## Model

| member | source | states |
|---|---|---|
| `Locations.BuildLocationToState` | Q-Learning.py:31-38 | The table maps exactly the labels of the list, each to the index of its first occurrence, so later duplicates are skipped; it equals `LocationTable(labels)`. It is injective. For distinct labels, `m[labels[i]] == i` for every `i`. |
| `Locations.LocationTableUnique` | Q-Learning.py:31-38 | Any table that maps exactly the labels, each to its first position, equals `LocationTable(labels)`. So the table the loop builds is determined by the label list. |
| `Locations.IndexOf` | Q-Learning.py:34-38 | Returns the position of the first occurrence of a label: an in-range index holding the label, with no earlier index holding it. |
| `Locations.StateToLocation` | Q-Learning.py:56 | The inverted dict has as keys exactly the values of the label table. It maps `m[x]` back to `x`, and each of its entries maps back through `m`. |
| `Locations.LocationTablesInverse` | Q-Learning.py:31-56 | For distinct labels, the inverse table is defined exactly on states `0 .. 8` and maps state `s` to `labels[s]`. The label table maps `labels[i]` to `i`, so the two tables are exact inverses. |
| `Rewards.Boost` | Q-Learning.py:59-65 | The boosted table is 9×9. It equals the base table everywhere except `[goal][goal]`, which is 999. |
| `Rewards.BoostedCopy` | Q-Learning.py:59-65 | Returns a 9×9 array whose contents are `Boost(base, goal)`. The base array is only read: the method has no `modifies` clause. |
| `Rewards.PlayableActions` | Q-Learning.py:77-82 | Returns the columns `j` in `[0, 9)` with `boosted[s, j] > 0`, all of them and only them, in strictly ascending order. |
| `Rewards.EveryStateHasPlayableAction` | Q-Learning.py:45-53 | For any goal, every row of the boosted literal matrix has a positive entry, so the random choice at line 86 never draws from an empty list. |
| `Learning.ArgMax` | Q-Learning.py:109 | Returns the lowest index in the row that attains the row maximum: every entry is at most the returned one, and every earlier entry is strictly smaller. |
| `Learning.Zero` | Q-Learning.py:68 | The initial Q table is 9×9 with every entry `0.0`. |
| `Learning.Step` | Q-Learning.py:91-94 | Only cell `[cs][ns]` changes. It becomes `Q[cs][ns] + alpha*(R[cs][ns] + gamma*max_a Q[ns][a] - Q[cs][ns])`, and every other cell keeps its value. |
| `Learning.TdUpdate` | Q-Learning.py:91-94 | The in-place array update leaves the array equal to `Step` applied to its old contents. |
| `Learning.Train` | Q-Learning.py:68-94 | The table after the injected choices is a 9×9 table: `Step` applied to each choice in order, starting from `Zero`. |
| `Learning.TrainZeroOffEdges` | Q-Learning.py:68-94 | Q starts at zero and is written only at playable pairs, so a non-zero `Q[s][a]` implies `R[s][a] > 0`. |
| `Learning.StepNonNegative` | Q-Learning.py:91-94 | With alpha in `(0, 1]`, gamma ≥ 0 and a non-negative reward, one update keeps a non-negative table non-negative. |
| `Learning.TrainNonNegative` | Q-Learning.py:68-94 | With alpha in `(0, 1]` and gamma ≥ 0 (0.9 and 0.75 here), every learned value stays ≥ 0. |
| `Learning.TrainedGreedyChoice` | Q-Learning.py:109 | In a learned row, a positive maximum is attained at a pair with a positive boosted reward. Otherwise the row is all zero and the first-max rule picks state 0. |
| `Learning.Learn` | Q-Learning.py:68-94 | The learning loop collects the playable actions, moves to the injected action (which is one of them) and updates in place. It returns a 9×9 array equal to `Train`. The array's zero pattern follows the boosted matrix, and the array is non-negative when alpha is in `(0, 1]` and gamma ≥ 0. |
| `Learning.TrainForGoal` | Q-Learning.py:59-94 | Boosts a copy of the reward array for the goal and then learns on it. The result equals `Train` over `Boost(rewards, goal)`. |
| `Route.ExtractRoute` | Q-Learning.py:97-117 | If start equals end, the result is `Ok([start])`. If start differs from end and is unknown, the result is `Err(UnknownLocation(start))`, and no other label can be unknown. An `Ok` route begins with start and ends with end. It is a greedy walk that meets end only at its last label. A walk that has not reached end after `maxSteps` moves returns its partial route. |
| `Route.GreedyWalkUnique` | Q-Learning.py:103-115 | Two greedy walks from the same label that both end at `end` are equal, so the returned route is determined by the table. |
| `Route.GreedyOutcomesExclusive` | Q-Learning.py:103-115 | A greedy walk that reaches `end` is longer than any greedy walk from the same label that avoids `end`. So for one table the walk either reaches `end` within the bound or exceeds the bound, never both. |
| `OptimalRoute.LearnedStepFollowsEdge` | Q-Learning.py:103-111 | One greedy move over a learned table, from a label other than the goal, follows an edge of the base matrix or lands on the first label. |
| `OptimalRoute.LearnedWalkFollowsEdges` | Q-Learning.py:97-117 | A greedy walk over a learned table that ends at the goal is a route: every label is known, and every move follows an edge of the base matrix or lands on the first label. |
| `OptimalRoute.LearnForEnd` | Q-Learning.py:45-94 | Copies the base rewards into an array and learns for the goal of `end`. The learned array equals `Learned`: `Train` over the base boosted for `IndexOf(labels, end)`. |
| `OptimalRoute.RouteToKnownGoal` | Q-Learning.py:59-117 | With a known end: `Ok([start])` when start equals end, and `Err(UnknownLocation(start))` when start is unknown and differs from end. An `Ok` route satisfies `IsRoute`, has at most `maxSteps + 1` labels, and is the greedy walk over the learned table through the loop-built location tables (`LearnedWalk`). A step-bound partial route has `maxSteps + 1` labels, starts at start, avoids end, and is the same greedy walk. |
| `OptimalRoute.OptimalRouteOver` | Q-Learning.py:19-117 | With an unknown end, the result is `Err(UnknownLocation(end))` before any learning; no draws are required. If start equals end, the result is `Ok([start])`. An unknown start fails only after learning, and only when start differs from end. An `Ok` result satisfies `IsRoute` and has at most `maxSteps + 1` labels. Both an `Ok` route and a step-bound partial route are the greedy walk from start over the table learned from the draws (`LearnedWalk`). With `GreedyWalkUnique` and `GreedyOutcomesExclusive`, this fixes the result for each start, end and set of draws. |
| `OptimalRoute.GetOptimalRoute` | Q-Learning.py:19-117 | The same results, including the `LearnedWalk` clauses, for the nine literal labels, the literal reward matrix, gamma 0.75, alpha 0.9 and exactly 1000 injected iterations. |

## Left out

- Randomness: the draws at Q-Learning.py:74 and Q-Learning.py:86 are the caller's `states` and `actions` sequences. No distributional claim is made.
- Floating point: Q values are exact `real`s. There is no claim about rounding, convergence after 1000 iterations, or the route being a shortest path.
- Route walk termination: the source's `while` loop has no bound and can run forever on a poorly trained table. The bound is an addition of the model: it stops after `maxSteps` moves with `StepBoundExceeded` and proves properties only of the routes it returns.
- Route.ExtractRoute: requires that every state `0 .. 8` has a label and that each such label is in the label table. The source always passes the two inverse tables, so the `KeyError` of `state_to_location` and a repeated-lookup `KeyError` cannot happen.
- Locations.StateToLocation: requires an injective table. The Python dict comprehension would let a later entry win, but it is only ever applied to the injective table that the loop builds.
- OptimalRoute.OptimalRouteOver: requires distinct labels. The source's nine labels are distinct (`Locations.LabelsDistinct`).
- Unplayable draws: `np.random.choice` on an empty list cannot happen with the literal matrix (`Rewards.EveryStateHasPlayableAction`). A draw outside the playable list is excluded by the requires.
- The unused `actions` list at Q-Learning.py:41, the module-level driver and `print` at Q-Learning.py:119-123, and numpy's array construction details are not modelled. The integer dtype of `rewards_new` holds 999 without overflow.
- OptimalRoute.GetOptimalRoute: does not claim that every move is a real edge. A row that learning never touched is all zero, and numpy's argmax then sends the walk to `L1` whether or not an edge exists. The contract states exactly this (`EdgeOrFirst`).
- An unknown start label is detected only after learning: the lookup at Q-Learning.py:106 runs after the learning loop. The model keeps this order; an unknown end fails before learning (Q-Learning.py:62).
