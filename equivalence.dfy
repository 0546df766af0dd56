/** The Equivalence Test Engine (phase 1): eleven baseline p-values, five from
    Welch's two-sample test on the cohorts and six from chi-square tests of
    independence on the whole sheet, and the list of variables that fail. */
module Equivalence {
  import opened Seqs
  import opened Schema
  import opened Partition

  /** A p-value strictly below this fails; exactly 0.05 passes. */
  const Threshold: real := 0.05

  /** An ordered dictionary from display name to p-value (a Python dict keeps insertion order). */
  type PValues = seq<(string, real)>

  /** The numeric baseline variables: display name and column, in declared order. */
  const NumericTests: seq<(string, string)> := [
    ("Yaş", "yas"),
    ("Gebelik Haftası", "gebelik_haftasi"),
    ("Başlangıç Korku (VAS)", "korku_vas_baseline"),
    ("Başlangıç Korku (Ölçek)", "korku_olcek_baseline"),
    ("Başlangıç Endişe (Oxford)", "endise_oxford_baseline")
  ]

  /** The categoric baseline variables: display name and column, in declared order. */
  const CategoricTests: seq<(string, string)> := [
    ("Eğitim Durumu", "egitim_durumu"),
    ("Doğum Başlangıcı (Doğum Şekli)", "dogum_baslangici"),
    ("Medeni Durum", "medeni_durum"),
    ("Gelir Düzeyi", "gelir_duzeyi"),
    ("Çalışma Durumu", "calisma_durumu"),
    ("Planlı Gebelik", "planli_gebelik_mi")
  ]

  /** The keys of an ordered dictionary, in order. */
  function Keys<V>(d: seq<(string, V)>): (r: seq<string>)
    ensures |r| == |d|
  {
    seq(|d|, i requires 0 <= i < |d| => d[i].0)
  }

  /** The eleven display names are pairwise different, the numeric ones apart from the categoric ones. */
  lemma DisplayNamesDistinct()
    ensures Distinct(Keys(NumericTests) + Keys(CategoricTests))
  {
  }

  /** The tested columns are the schema's: numeric tests use numeric columns, categoric tests categoric ones. */
  lemma TestedColumnsInSchema()
    ensures forall k :: 0 <= k < |NumericTests| ==> NumericTests[k].1 in NumericColumns
    ensures forall k :: 0 <= k < |CategoricTests| ==> CategoricTests[k].1 in CategoricColumns && CategoricTests[k].1 != GroupColumn
  {
  }

  // ---------------------------------------------------------------- the two p-value dicts

  /** `p_values_numeric`: Welch's test of each numeric variable, intervention column against control column. */
  function NumericPValues(intervention: seq<Row>, control: seq<Row>, welch: (seq<Cell>, seq<Cell>) -> real): (r: PValues)
    ensures Keys(r) == Keys(NumericTests)
  {
    seq(|NumericTests|, k requires 0 <= k < |NumericTests| =>
      (NumericTests[k].0, welch(Column(intervention, NumericTests[k].1), Column(control, NumericTests[k].1))))
  }

  /** `p_values_categoric`: a chi-square test of each categoric variable against the group
      column, both taken from every row (not only the two cohorts). */
  function CategoricPValues(rows: seq<Row>, chi2: (seq<Cell>, seq<Cell>) -> real): (r: PValues)
    ensures Keys(r) == Keys(CategoricTests)
  {
    seq(|CategoricTests|, k requires 0 <= k < |CategoricTests| =>
      (CategoricTests[k].0, chi2(Column(rows, GroupColumn), Column(rows, CategoricTests[k].1))))
  }

  // ---------------------------------------------------------------- dict merge

  /** `d[k] = v`: an existing key keeps its position and takes the new value; a new key goes last. */
  function Put(d: PValues, k: string, v: real): PValues
  {
    if d == [] then [(k, v)]
    else if d[0].0 == k then [(k, v)] + d[1..]
    else [d[0]] + Put(d[1..], k, v)
  }

  /** `{**a, **b}`: the entries of `b` put into `a` one after another. */
  function Merge(a: PValues, b: PValues): PValues
    decreases |b|
  {
    if b == [] then a else Merge(Put(a, b[0].0, b[0].1), b[1..])
  }

  lemma {:induction false} PutNew(d: PValues, k: string, v: real)
    requires k !in Keys(d)
    ensures Put(d, k, v) == d + [(k, v)]
  {
    if d != [] {
      assert Keys(d)[0] == d[0].0;
      assert Keys(d[1..]) == Keys(d)[1..];
      PutNew(d[1..], k, v);
      assert d == [d[0]] + d[1..];
    }
  }

  /** With distinct keys on both sides, merging the two dicts concatenates them. */
  lemma {:induction false} MergeDisjoint(a: PValues, b: PValues)
    requires Distinct(Keys(a) + Keys(b))
    ensures Merge(a, b) == a + b
    decreases |b|
  {
    if b != [] {
      var ka := Keys(a);
      assert (ka + Keys(b))[|ka|] == b[0].0;
      assert b[0].0 !in ka by {
        forall i | 0 <= i < |ka| ensures ka[i] != b[0].0 {
          assert (ka + Keys(b))[i] == ka[i];
        }
      }
      PutNew(a, b[0].0, b[0].1);
      var a' := a + [b[0]];
      assert Keys(a') + Keys(b[1..]) == ka + Keys(b);
      MergeDisjoint(a', b[1..]);
      assert a' + b[1..] == a + b;
    }
  }

  // ---------------------------------------------------------------- failing list

  predicate Fails(e: (string, real))
  {
    e.1 < Threshold
  }

  lemma {:induction false} KeysOfSubsequence(r: PValues, s: PValues)
    requires IsSubsequence(r, s)
    ensures IsSubsequence(Keys(r), Keys(s))
    decreases |s|
  {
    if r != [] {
      assert Keys(s[1..]) == Keys(s)[1..];
      assert Keys(r[1..]) == Keys(r)[1..];
      if r[0] == s[0] && IsSubsequence(r[1..], s[1..]) {
        KeysOfSubsequence(r[1..], s[1..]);
      } else {
        KeysOfSubsequence(r, s[1..]);
      }
    }
  }

  /** The display names whose p-value is below the threshold, in dict order. */
  function FailedNames(d: PValues): (r: seq<string>)
    ensures forall n :: n in r <==> exists i :: 0 <= i < |d| && d[i].0 == n && d[i].1 < Threshold
    ensures |r| == Count(Fails, d)
    ensures IsSubsequence(r, Keys(d))
  {
    var f := Filter(Fails, d);
    KeysOfSubsequence(f, d);
    assert forall n :: n in Keys(f) ==> exists i :: 0 <= i < |d| && d[i].0 == n && d[i].1 < Threshold by {
      forall n | n in Keys(f) ensures exists i :: 0 <= i < |d| && d[i].0 == n && d[i].1 < Threshold {
        var m :| 0 <= m < |f| && Keys(f)[m] == n;
        var i :| 0 <= i < |d| && d[i] == f[m];
      }
    }
    assert forall i :: 0 <= i < |d| && d[i].1 < Threshold ==> d[i].0 in Keys(f) by {
      forall i | 0 <= i < |d| && d[i].1 < Threshold ensures d[i].0 in Keys(f) {
        assert Fails(d[i]);
        var m :| 0 <= m < |f| && f[m] == d[i];
        assert Keys(f)[m] == d[i].0;
      }
    }
    Keys(f)
  }

  /** The failing list of a concatenation: first the failures of the first part, then those of the second. */
  lemma FailedNamesAppend(a: PValues, b: PValues)
    ensures FailedNames(a + b) == FailedNames(a) + FailedNames(b)
  {
    FilterAppend(Fails, a, b);
  }

  /** The variables are equivalent (nothing fails) exactly when every p-value is at least 0.05. */
  lemma EquivalentIff(d: PValues)
    ensures |FailedNames(d)| == 0 <==> forall i :: 0 <= i < |d| ==> d[i].1 >= Threshold
  {
    CountZero(Fails, d);
  }

  /** The eleven entries in the order the analysis lists them, and the failing
      list split into its numeric part followed by its categoric part. */
  lemma PhaseOneOrder(intervention: seq<Row>, control: seq<Row>, rows: seq<Row>,
                      welch: (seq<Cell>, seq<Cell>) -> real, chi2: (seq<Cell>, seq<Cell>) -> real)
    ensures var num := NumericPValues(intervention, control, welch);
            var cat := CategoricPValues(rows, chi2);
            Merge(num, cat) == num + cat &&
            Keys(Merge(num, cat)) == Keys(NumericTests) + Keys(CategoricTests) &&
            FailedNames(Merge(num, cat)) == FailedNames(num) + FailedNames(cat)
  {
    var num := NumericPValues(intervention, control, welch);
    var cat := CategoricPValues(rows, chi2);
    DisplayNamesDistinct();
    MergeDisjoint(num, cat);
    assert Keys(num + cat) == Keys(num) + Keys(cat);
    FailedNamesAppend(num, cat);
  }
}
