/**
 * The location labels of the grid and the two tables that translate between
 * a label and its state index.
 */
module Locations {

  /** The nine location labels, in state order. */
  const Labels: seq<string> := ["L1", "L2", "L3", "L4", "L5", "L6", "L7", "L8", "L9"]

  ghost predicate Distinct(labels: seq<string>)
  {
    forall i, j :: 0 <= i < j < |labels| ==> labels[i] != labels[j]
  }

  ghost predicate Injective(m: map<string, int>)
  {
    forall x, y :: x in m && y in m && x != y ==> m[x] != m[y]
  }

  /** The position of the first occurrence of `x` in `labels`. */
  function IndexOf(labels: seq<string>, x: string): (k: int)
    requires x in labels
    ensures 0 <= k < |labels| && labels[k] == x
    ensures forall j :: 0 <= j < k ==> labels[j] != x
  {
    if labels[0] == x then 0 else 1 + IndexOf(labels[1..], x)
  }

  /** `m` maps exactly the labels of `labels`, each to its first position. */
  ghost predicate IsLocationTable(labels: seq<string>, m: map<string, int>)
  {
    && (forall x :: x in m <==> x in labels)
    && (forall x :: x in m ==> m[x] == IndexOf(labels, x))
  }

  /** The label-to-state table for `labels`: every label mapped to the position of its first occurrence. */
  ghost function LocationTable(labels: seq<string>): (m: map<string, int>)
    ensures IsLocationTable(labels, m)
    ensures Injective(m)
  {
    map x | x in labels :: IndexOf(labels, x)
  }

  /** A location table is determined by its labels: it is the one `LocationTable` builds. */
  lemma LocationTableUnique(labels: seq<string>, m: map<string, int>)
    requires IsLocationTable(labels, m)
    ensures m == LocationTable(labels)
  {
    var t := LocationTable(labels);
    assert m.Keys == t.Keys;
  }

  lemma LabelsDistinct()
    ensures Distinct(Labels)
  {
  }

  /**
   * Fills the label-to-state table one label at a time; a label that is
   * already present keeps the index of its first occurrence.
   */
  method BuildLocationToState(labels: seq<string>) returns (m: map<string, int>)
    ensures IsLocationTable(labels, m) && m == LocationTable(labels)
    ensures Injective(m)
    ensures Distinct(labels) ==> forall i :: 0 <= i < |labels| ==> labels[i] in m && m[labels[i]] == i
  {
    m := map[];
    for i := 0 to |labels|
      invariant forall x :: x in m <==> x in labels[..i]
      invariant forall x :: x in m ==> m[x] == IndexOf(labels, x)
    {
      if labels[i] in m {
        continue;
      } else {
        assert labels[i] !in labels[..i];
        assert forall j :: 0 <= j < i ==> labels[j] != labels[i] by {
          forall j | 0 <= j < i ensures labels[j] != labels[i] {
            assert labels[j] == labels[..i][j];
          }
        }
        m := m[labels[i] := i];
      }
    }
    assert labels[..|labels|] == labels;
    LocationTableUnique(labels, m);
  }

  /** The state-to-label table: the inverse of an injective label-to-state table. */
  function StateToLocation(m: map<string, int>): (inv: map<int, string>)
    requires Injective(m)
    ensures forall s :: s in inv <==> s in m.Values
    ensures forall x :: x in m ==> m[x] in inv && inv[m[x]] == x
    ensures forall s :: s in inv ==> inv[s] in m && m[inv[s]] == s
  {
    map x | x in m :: m[x] := x
  }

  /**
   * For distinct labels the two tables are exact inverses: every state
   * 0 .. |labels|-1 maps back to the label at that position.
   */
  lemma {:induction false} LocationTablesInverse(labels: seq<string>, m: map<string, int>)
    requires Distinct(labels) && IsLocationTable(labels, m) && Injective(m)
    ensures forall s :: s in StateToLocation(m) <==> 0 <= s < |labels|
    ensures forall s :: 0 <= s < |labels| ==> StateToLocation(m)[s] == labels[s]
    ensures forall i :: 0 <= i < |labels| ==> m[labels[i]] == i
  {
    var inv := StateToLocation(m);
    forall i | 0 <= i < |labels| ensures m[labels[i]] == i {
      var k := IndexOf(labels, labels[i]);
      assert labels[k] == labels[i];
    }
    forall s | 0 <= s < |labels| ensures s in inv && inv[s] == labels[s] {
      assert labels[s] in m;
    }
  }
}
