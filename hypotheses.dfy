/** The Hypothesis Test Engine (phase 2) up to the model fit: five fixed
    ANCOVA formulas `outcome ~ grup + pretest`, each extended by the same
    correction string, and for each its own rows, those with outcome, group and
    pretest all present. The fit itself is a parameter. */
module Hypotheses {
  import opened Seqs
  import opened Schema

  /** One hypothesis: the outcome it tests and the pretest it adjusts for. */
  datatype Hypothesis = Hypothesis(outcome: string, pretest: string)

  const H1Vas := Hypothesis("korku_vas_4cm", "korku_vas_baseline")
  const H1Olcek := Hypothesis("korku_olcek_4cm", "korku_olcek_baseline")
  const H2Vas := Hypothesis("korku_vas_8cm", "korku_vas_4cm")
  const H2Olcek := Hypothesis("korku_olcek_8cm", "korku_olcek_4cm")
  const H3Oxford := Hypothesis("endise_oxford_son_test", "endise_oxford_baseline")

  /** The five hypotheses in the order their p-values are reported. */
  const AllHypotheses: seq<Hypothesis> := [H1Vas, H1Olcek, H2Vas, H2Olcek, H3Oxford]

  /** Every hypothesis regresses a numeric outcome on the group and a different numeric pretest. */
  lemma HypothesesInSchema()
    ensures forall k :: 0 <= k < |AllHypotheses| ==>
      AllHypotheses[k].outcome in NumericColumns && AllHypotheses[k].pretest in NumericColumns &&
      AllHypotheses[k].outcome != AllHypotheses[k].pretest
  {
  }

  /** The base formula `outcome ~ grup + pretest` of `h`. */
  function BaseFormula(h: Hypothesis): string
  {
    h.outcome + " ~ " + GroupColumn + " + " + h.pretest
  }

  /** The formula fitted for `h`: its base formula followed by the correction string. */
  function Formula(h: Hypothesis, correction: string): string
  {
    BaseFormula(h) + correction
  }

  lemma BaseTextH1Vas()
    ensures BaseFormula(H1Vas) == "korku_vas_4cm ~ grup + korku_vas_baseline"
  {
  }

  lemma BaseTextH1Olcek()
    ensures BaseFormula(H1Olcek) == "korku_olcek_4cm ~ grup + korku_olcek_baseline"
  {
  }

  lemma BaseTextH2Vas()
    ensures BaseFormula(H2Vas) == "korku_vas_8cm ~ grup + korku_vas_4cm"
  {
  }

  lemma BaseTextH2Olcek()
    ensures BaseFormula(H2Olcek) == "korku_olcek_8cm ~ grup + korku_olcek_4cm"
  {
  }

  lemma BaseTextH3Oxford()
    ensures BaseFormula(H3Oxford) == "endise_oxford_son_test ~ grup + endise_oxford_baseline"
  {
  }

  /** The five formulas are the fixed base strings of the analysis, each followed by the same correction. */
  lemma FormulaTexts(correction: string)
    ensures Formula(H1Vas, correction) == "korku_vas_4cm ~ grup + korku_vas_baseline" + correction
    ensures Formula(H1Olcek, correction) == "korku_olcek_4cm ~ grup + korku_olcek_baseline" + correction
    ensures Formula(H2Vas, correction) == "korku_vas_8cm ~ grup + korku_vas_4cm" + correction
    ensures Formula(H2Olcek, correction) == "korku_olcek_8cm ~ grup + korku_olcek_4cm" + correction
    ensures Formula(H3Oxford, correction) == "endise_oxford_son_test ~ grup + endise_oxford_baseline" + correction
  {
    BaseTextH1Vas();
    BaseTextH1Olcek();
    BaseTextH2Vas();
    BaseTextH2Olcek();
    BaseTextH3Oxford();
  }

  /** The three columns `h` drops incomplete rows on. */
  function Needed(h: Hypothesis): seq<string>
  {
    [h.outcome, GroupColumn, h.pretest]
  }

  predicate Complete(row: Row, columns: seq<string>)
  {
    forall c :: c in columns ==> !Get(row, c).Missing?
  }

  /** The row mask `df[columns].notna().all(axis=1)`. */
  function CompleteOn(columns: seq<string>): Row -> bool
  {
    x => Complete(x, columns)
  }

  /** `df.dropna(subset=columns)`: the rows with a value in every one of `columns`, in order. */
  function DropMissing(rows: seq<Row>, columns: seq<string>): seq<Row>
  {
    Filter(CompleteOn(columns), rows)
  }

  /** The rows the model for `h` is fitted on, taken from the whole cleaned sheet. */
  function HypothesisData(rows: seq<Row>, h: Hypothesis): (r: seq<Row>)
    ensures IsSubsequence(r, rows)
    ensures forall i :: 0 <= i < |rows| ==>
      (rows[i] in r <==> !Get(rows[i], h.outcome).Missing? && !Get(rows[i], GroupColumn).Missing? && !Get(rows[i], h.pretest).Missing?)
    ensures |r| == Count(CompleteOn(Needed(h)), rows)
  {
    var r := DropMissing(rows, Needed(h));
    assert forall x :: Complete(x, Needed(h)) <==>
      !Get(x, h.outcome).Missing? && !Get(x, GroupColumn).Missing? && !Get(x, h.pretest).Missing?;
    r
  }

  /** The hypothesis p-values: the group-term p-value of every fitted model, all
      five formulas carrying the same correction. */
  function HypothesisPValues(rows: seq<Row>, correction: string, ancova: (string, seq<Row>) -> real): (ps: seq<real>)
    ensures |ps| == |AllHypotheses|
  {
    seq(|AllHypotheses|, k requires 0 <= k < |AllHypotheses| =>
      ancova(Formula(AllHypotheses[k], correction), HypothesisData(rows, AllHypotheses[k])))
  }

  /** Exclusion is per hypothesis: a row missing only the 4 cm VAS score is
      dropped from the two hypotheses that use it and kept by the other three. */
  lemma FilteringIsPerHypothesis(rows: seq<Row>, i: nat)
    requires i < |rows|
    requires forall c :: c in NumericColumns + [GroupColumn] ==> (Get(rows[i], c).Missing? <==> c == "korku_vas_4cm")
    ensures rows[i] !in HypothesisData(rows, H1Vas) && rows[i] !in HypothesisData(rows, H2Vas)
    ensures rows[i] in HypothesisData(rows, H1Olcek) && rows[i] in HypothesisData(rows, H2Olcek) && rows[i] in HypothesisData(rows, H3Oxford)
  {
    assert "korku_vas_4cm" in NumericColumns;
    assert forall c :: c in ["korku_olcek_4cm", "korku_olcek_baseline", "korku_olcek_8cm", "endise_oxford_son_test", "endise_oxford_baseline", GroupColumn] ==>
      c in NumericColumns + [GroupColumn] && c != "korku_vas_4cm";
  }
}
