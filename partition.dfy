/** The Group Partitioner: the intervention and control cohorts are the
    rows whose group label is exactly one of the two fixed labels. */
module Partition {
  import opened Seqs
  import opened Schema

  const InterventionLabel: string := "Müdahale"
  const ControlLabel: string := "Kontrol"

  predicate HasLabel(row: Row, tag: string)
  {
    Get(row, GroupColumn) == Text(tag)
  }

  /** The row mask `df['grup'] == tag`. */
  function Labelled(tag: string): Row -> bool
  {
    x => HasLabel(x, tag)
  }

  /** `df[df['grup'] == tag]`: the rows labelled `tag`, in their original order,
      each as often as it occurs in `rows`. */
  function Cohort(rows: seq<Row>, tag: string): (r: seq<Row>)
    ensures forall i :: 0 <= i < |r| ==> r[i] in rows && HasLabel(r[i], tag)
    ensures forall i :: 0 <= i < |rows| && HasLabel(rows[i], tag) ==> rows[i] in r
    ensures IsSubsequence(r, rows)
    ensures |r| == Count(Labelled(tag), rows)
  {
    Filter(Labelled(tag), rows)
  }

  /** One column of `rows`, top to bottom (a pandas Series). */
  function Column(rows: seq<Row>, column: string): seq<Cell>
  {
    seq(|rows|, j requires 0 <= j < |rows| => Get(rows[j], column))
  }

  /** No row is in both cohorts, a row with any other label (or none) is in
      neither, and together the cohorts hold at most every row once. */
  lemma CohortsDisjoint(rows: seq<Row>)
    ensures forall i :: 0 <= i < |Cohort(rows, InterventionLabel)| ==>
      Cohort(rows, InterventionLabel)[i] !in Cohort(rows, ControlLabel)
    ensures forall i :: 0 <= i < |rows| && !HasLabel(rows[i], InterventionLabel) && !HasLabel(rows[i], ControlLabel) ==>
      rows[i] !in Cohort(rows, InterventionLabel) && rows[i] !in Cohort(rows, ControlLabel)
    ensures |Cohort(rows, InterventionLabel)| + |Cohort(rows, ControlLabel)| <= |rows|
  {
    assert InterventionLabel != ControlLabel;
    ExclusiveCounts(Labelled(InterventionLabel), Labelled(ControlLabel), rows);
  }
}
