/** `run_full_analysis`: validation, partition, phase 1, covariate selection,
    phase 2 and the narrative, producing either a single error or the full
    result record. The statistical tests are parameters: `welch` (Welch's
    two-sample test), `chi2` (the chi-square test of a group-by-category
    table), `ancova` (the OLS fit with its type-III table, giving the group
    term's p-value) and `parse` (pandas' number parser). */
module Analysis {
  import opened Seqs
  import opened Schema
  import opened Partition
  import opened Equivalence
  import opened Covariates
  import opened Hypotheses
  import opened Narrative

  /** The result record: either only an error, or every result field and no error. */
  datatype Report =
    | ErrorReport(error: string)
    | Results(
        numericP: PValues,
        categoricP: PValues,
        isEquivalent: bool,
        failedNames: seq<string>,
        correction: string,
        hypothesisP: seq<real>,
        title: string,
        text: string)

  /** What a full result record holds for the cleaned rows `clean`. */
  ghost predicate Describes(
    r: Report,
    clean: seq<Row>,
    welch: (seq<Cell>, seq<Cell>) -> real,
    chi2: (seq<Cell>, seq<Cell>) -> real,
    ancova: (string, seq<Row>) -> real)
  {
    r.Results? &&
    // phase 1: numeric tests on the two cohorts, categoric tests on every row
    r.numericP == NumericPValues(Cohort(clean, InterventionLabel), Cohort(clean, ControlLabel), welch) &&
    r.categoricP == CategoricPValues(clean, chi2) &&
    r.failedNames == FailedNames(r.numericP) + FailedNames(r.categoricP) &&
    (r.isEquivalent <==> forall i :: 0 <= i < |r.numericP + r.categoricP| ==> (r.numericP + r.categoricP)[i].1 >= Threshold) &&
    (r.isEquivalent <==> r.failedNames == []) &&
    // covariate selection and phase 2
    r.correction == (if r.isEquivalent then "" else CorrectionFor(r.failedNames)) &&
    |r.hypothesisP| == |AllHypotheses| &&
    (forall k :: 0 <= k < |AllHypotheses| ==>
      r.hypothesisP[k] == ancova(Formula(AllHypotheses[k], r.correction), HypothesisData(clean, AllHypotheses[k]))) &&
    // narrative
    (r.title, r.text) == Conclusion(r.isEquivalent, r.hypothesisP, r.failedNames)
  }

  /** Everything after validation, on the cleaned rows. */
  method AnalyzeCleaned(
    clean: seq<Row>,
    welch: (seq<Cell>, seq<Cell>) -> real,
    chi2: (seq<Cell>, seq<Cell>) -> real,
    ancova: (string, seq<Row>) -> real)
    returns (r: Report)
    ensures Describes(r, clean, welch, chi2, ancova)
  {
    var intervention := Cohort(clean, InterventionLabel);
    var control := Cohort(clean, ControlLabel);

    var numericP := NumericPValues(intervention, control, welch);
    var categoricP := CategoricPValues(clean, chi2);
    var all := Merge(numericP, categoricP);
    var failed := FailedNames(all);
    var isEquivalent := |failed| == 0;
    PhaseOneOrder(intervention, control, clean, welch, chi2);
    EquivalentIff(all);

    var correction := CorrectionFormulaPart(isEquivalent, failed);

    var hypothesisP := HypothesisPValues(clean, correction, ancova);
    var (title, text) := Conclusion(isEquivalent, hypothesisP, failed);

    r := Results(numericP, categoricP, isEquivalent, failed, correction, hypothesisP, title, text);
  }

  /** `run_full_analysis`: a validation error is the whole report; otherwise
      the report describes the cleaned sheet. */
  method RunFullAnalysis(
    df: Frame,
    parse: string -> Option<real>,
    welch: (seq<Cell>, seq<Cell>) -> real,
    chi2: (seq<Cell>, seq<Cell>) -> real,
    ancova: (string, seq<Row>) -> real)
    returns (r: Report)
    ensures MissingColumns(df.columns) != [] ==>
      r == ErrorReport(MissingColumnsMessage(MissingColumns(df.columns)))
    ensures MissingColumns(df.columns) == [] && AllNumericMissing(Cleaned(df.rows, parse)) ==>
      r == ErrorReport(EmptyNumericMessage)
    ensures r.ErrorReport? <==> MissingColumns(df.columns) != [] || AllNumericMissing(Cleaned(df.rows, parse))
    ensures r.Results? ==> Describes(r, Cleaned(df.rows, parse), welch, chi2, ancova)
  {
    var v := Validate(df, parse);
    match v
    case Rejected(message) =>
      r := ErrorReport(message);
    case Accepted(clean) =>
      r := AnalyzeCleaned(clean, welch, chi2, ancova);
  }

  /** Scenario: only the age test fails. The failing list is ["Yaş"], the
      correction adds the one linear term `yas`, and a positive phase 2 gives
      the corrected conclusion, whose text names "Yaş". */
  lemma OnlyAgeFails(numericP: PValues, categoricP: PValues)
    requires Keys(numericP) == Keys(NumericTests) && Keys(categoricP) == Keys(CategoricTests)
    requires numericP[0].1 < Threshold
    requires forall i :: 1 <= i < |numericP| ==> numericP[i].1 >= Threshold
    requires forall i :: 0 <= i < |categoricP| ==> categoricP[i].1 >= Threshold
    ensures FailedNames(numericP + categoricP) == ["Yaş"]
    ensures CorrectionTerms(["Yaş"]) == [Linear("yas")] && CorrectionFor(["Yaş"]) == " + yas"
    ensures Occurs("Yaş", Template(Classify(false, true), ["Yaş"]))
  {
    var f := FailedNames(numericP + categoricP);
    FailedNamesAppend(numericP, categoricP);
    EquivalentIff(categoricP);
    EquivalentIff(numericP[1..]);
    assert numericP == [numericP[0]] + numericP[1..];
    FailedNamesAppend([numericP[0]], numericP[1..]);
    assert Keys(numericP)[0] == "Yaş";
    assert FailedNames([numericP[0]]) == ["Yaş"];
    CorrectedTextNamesFailures(["Yaş"]);
  }

  /** Scenario: baseline equivalence holds and some hypothesis is significant:
      nothing is corrected and the conclusion is the strong positive one. */
  lemma EquivalentAndEffective(numericP: PValues, categoricP: PValues, hypothesisP: seq<real>)
    requires forall i :: 0 <= i < |numericP + categoricP| ==> (numericP + categoricP)[i].1 >= Threshold
    requires exists k :: 0 <= k < |hypothesisP| && hypothesisP[k] < Threshold
    ensures FailedNames(numericP + categoricP) == []
    ensures CorrectionFor(FailedNames(numericP + categoricP)) == ""
    ensures Classify(FailedNames(numericP + categoricP) == [], AnySignificant(hypothesisP)) == StrongPositive
  {
    EquivalentIff(numericP + categoricP);
    AnySignificantIff(hypothesisP);
  }
}
