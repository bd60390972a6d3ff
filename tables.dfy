/** Fixed-size square tables shared by the environment and the learner. */
module Tables {

  /** Number of locations (states) of the grid; also the number of actions. */
  const N := 9

  /** `t` is an N by N table. */
  ghost predicate IsTable<T>(t: seq<seq<T>>)
  {
    |t| == N && forall i :: 0 <= i < N ==> |t[i]| == N
  }

  /** The contents of a two-dimensional array, row by row. */
  function Grid<T>(a: array2<T>): (g: seq<seq<T>>)
    reads a
    ensures |g| == a.Length0
    ensures forall i :: 0 <= i < a.Length0 ==> |g[i]| == a.Length1
    ensures forall i, j :: 0 <= i < a.Length0 && 0 <= j < a.Length1 ==> g[i][j] == a[i, j]
  {
    seq(a.Length0, i requires 0 <= i < a.Length0 reads a =>
      seq(a.Length1, j requires 0 <= j < a.Length1 reads a => a[i, j]))
  }

  /** An array holds table `t` when they agree cell by cell. */
  lemma GridEquals<T>(a: array2<T>, t: seq<seq<T>>)
    requires IsTable(t) && a.Length0 == N && a.Length1 == N
    requires forall i, j :: 0 <= i < N && 0 <= j < N ==> a[i, j] == t[i][j]
    ensures Grid(a) == t
  {
    forall i | 0 <= i < N ensures Grid(a)[i] == t[i] {
      assert forall j :: 0 <= j < N ==> Grid(a)[i][j] == t[i][j];
    }
  }
}
