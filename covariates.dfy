/** The Dynamic Covariate Selector: every failing baseline variable that has a
    column in the correction map becomes one term added to all five model
    formulas, a factor term `C(col)` for a categoric column and a linear term
    for a numeric one. */
module Covariates {
  import opened Seqs
  import opened Schema
  import opened Equivalence

  /** The correction map: display name to column. The three baseline-score
      names of the numeric tests have no entry. */
  const DisplayToColumn: map<string, string> := map[
    "Yaş" := "yas",
    "Gebelik Haftası" := "gebelik_haftasi",
    "Eğitim Durumu" := "egitim_durumu",
    "Doğum Başlangıcı (Doğum Şekli)" := "dogum_baslangici",
    "Medeni Durum" := "medeni_durum",
    "Gelir Düzeyi" := "gelir_duzeyi",
    "Çalışma Durumu" := "calisma_durumu",
    "Planlı Gebelik" := "planli_gebelik_mi"
  ]

  /** One covariate term of a model formula. */
  datatype Term = Linear(column: string) | Factor(column: string)

  predicate Mapped(name: string)
  {
    name in DisplayToColumn
  }

  /** The term a mapped display name stands for. */
  function TermOf(name: string): Term
    requires Mapped(name)
  {
    var column := DisplayToColumn[name];
    if column in CategoricColumns then Factor(column) else Linear(column)
  }

  /** The terms the selector loop emits for `failed`, one name at a time. */
  function CorrectionTerms(failed: seq<string>): seq<Term>
  {
    if failed == [] then []
    else (if Mapped(failed[0]) then [TermOf(failed[0])] else []) + CorrectionTerms(failed[1..])
  }

  /** The formula text of one term. */
  function RenderTerm(t: Term): string
  {
    match t
    case Linear(column) => " + " + column
    case Factor(column) => " + C(" + column + ")"
  }

  /** The formula text of a list of terms: their texts one after another. */
  function Render(terms: seq<Term>): string
  {
    if terms == [] then "" else RenderTerm(terms[0]) + Render(terms[1..])
  }

  /** The correction string for a failing list. */
  function CorrectionFor(failed: seq<string>): string
  {
    Render(CorrectionTerms(failed))
  }

  lemma {:induction false} CorrectionTermsAppend(a: seq<string>, b: seq<string>)
    ensures CorrectionTerms(a + b) == CorrectionTerms(a) + CorrectionTerms(b)
  {
    if a == [] {
      assert a + b == b;
    } else {
      assert (a + b)[1..] == a[1..] + b;
      CorrectionTermsAppend(a[1..], b);
    }
  }

  lemma {:induction false} RenderAppend(a: seq<Term>, b: seq<Term>)
    ensures Render(a + b) == Render(a) + Render(b)
  {
    if a == [] {
      assert a + b == b;
    } else {
      assert (a + b)[1..] == a[1..] + b;
      RenderAppend(a[1..], b);
    }
  }

  /** The terms are those of the mapped failing names, one each, in failing-list
      order; the unmapped names contribute nothing. */
  lemma {:induction false} CorrectionTermsSpec(failed: seq<string>)
    ensures |CorrectionTerms(failed)| == Count(Mapped, failed)
    ensures forall k :: 0 <= k < |CorrectionTerms(failed)| ==>
      Mapped(Filter(Mapped, failed)[k]) && CorrectionTerms(failed)[k] == TermOf(Filter(Mapped, failed)[k])
  {
    if failed != [] {
      var rest := failed[1..];
      CorrectionTermsSpec(rest);
      if Mapped(failed[0]) {
        assert Filter(Mapped, failed) == [failed[0]] + Filter(Mapped, rest);
        assert CorrectionTerms(failed) == [TermOf(failed[0])] + CorrectionTerms(rest);
      } else {
        assert Filter(Mapped, failed) == Filter(Mapped, rest);
        assert CorrectionTerms(failed) == CorrectionTerms(rest);
      }
    }
  }

  /** Every term names a mapped column and is a factor term exactly when that column is categoric. */
  lemma {:induction false} TermsTagged(failed: seq<string>)
    ensures forall k :: 0 <= k < |CorrectionTerms(failed)| ==>
      CorrectionTerms(failed)[k].column in DisplayToColumn.Values &&
      (CorrectionTerms(failed)[k].Factor? <==> CorrectionTerms(failed)[k].column in CategoricColumns)
  {
    CorrectionTermsSpec(failed);
  }

  lemma {:induction false} RenderEmpty(terms: seq<Term>)
    ensures Render(terms) == "" <==> terms == []
  {
    if terms != [] {
      assert |RenderTerm(terms[0])| > 0;
      assert Render(terms) == RenderTerm(terms[0]) + Render(terms[1..]);
    }
  }

  /** The correction string is empty exactly when no failing name is mapped. */
  lemma CorrectionEmptyIff(failed: seq<string>)
    ensures CorrectionFor(failed) == "" <==> forall i :: 0 <= i < |failed| ==> !Mapped(failed[i])
  {
    RenderEmpty(CorrectionTerms(failed));
    CorrectionTermsSpec(failed);
    CountZero(Mapped, failed);
  }

  /** The three baseline-score variables are tested but not mapped: failing only
      on them leaves the correction string empty. */
  lemma BaselineScoresAddNothing(failed: seq<string>)
    requires forall i :: 0 <= i < |failed| ==> failed[i] in Keys(NumericTests)[2..]
    ensures CorrectionFor(failed) == ""
  {
    assert forall n :: n in Keys(NumericTests)[2..] ==> !Mapped(n);
    CorrectionEmptyIff(failed);
  }

  /** The map covers the two demographic numeric variables as linear terms and
      all six categoric variables as factor terms, each under its own column. */
  lemma MapAgreesWithTests()
    ensures forall k :: 0 <= k < 2 ==> Mapped(NumericTests[k].0) && TermOf(NumericTests[k].0) == Linear(NumericTests[k].1)
    ensures forall k :: 0 <= k < |CategoricTests| ==> Mapped(CategoricTests[k].0) && TermOf(CategoricTests[k].0) == Factor(CategoricTests[k].1)
    ensures forall n :: Mapped(n) ==> n in Keys(NumericTests)[..2] + Keys(CategoricTests)
  {
    assert DisplayToColumn.Keys == {
      "Yaş", "Gebelik Haftası", "Eğitim Durumu", "Doğum Başlangıcı (Doğum Şekli)",
      "Medeni Durum", "Gelir Düzeyi", "Çalışma Durumu", "Planlı Gebelik"
    };
    assert Keys(NumericTests)[..2] + Keys(CategoricTests) == [
      "Yaş", "Gebelik Haftası", "Eğitim Durumu", "Doğum Başlangıcı (Doğum Şekli)",
      "Medeni Durum", "Gelir Düzeyi", "Çalışma Durumu", "Planlı Gebelik"
    ];
  }

  /** The selector loop: when equivalence failed, it appends the text of each
      mapped failing name's term, in failing-list order. */
  method CorrectionFormulaPart(isEquivalent: bool, failed: seq<string>) returns (part: string)
    ensures part == if isEquivalent then "" else CorrectionFor(failed)
  {
    part := "";
    if !isEquivalent {
      for i := 0 to |failed|
        invariant part == CorrectionFor(failed[..i])
      {
        var name := failed[i];
        CorrectionTermsAppend(failed[..i], [name]);
        RenderAppend(CorrectionTerms(failed[..i]), CorrectionTerms([name]));
        assert failed[..i + 1] == failed[..i] + [name];
        if name in DisplayToColumn {
          var column := DisplayToColumn[name];
          if column in CategoricColumns {
            part := part + " + C(" + column + ")";
          } else {
            part := part + " + " + column;
          }
        }
      }
      assert failed[..|failed|] == failed;
    }
  }
}
