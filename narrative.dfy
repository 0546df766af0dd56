/** The Narrative Classifier: phase 2 succeeds when some hypothesis p-value is
    below 0.05, and the pair (equivalence, phase-2 success) picks one of four
    fixed conclusions, each with its title and its text. */
module Narrative {
  import opened Seqs
  import opened Equivalence

  /** `any(p < 0.05 for p in ps)`. */
  function AnySignificant(ps: seq<real>): bool
  {
    if ps == [] then false else ps[0] < Threshold || AnySignificant(ps[1..])
  }

  /** Phase 2 succeeds exactly when at least one p-value is below 0.05 (and never for no p-values). */
  lemma {:induction false} AnySignificantIff(ps: seq<real>)
    ensures AnySignificant(ps) <==> exists i :: 0 <= i < |ps| && ps[i] < Threshold
  {
    if ps != [] {
      AnySignificantIff(ps[1..]);
      assert forall i :: 1 <= i < |ps| ==> ps[i] == ps[1..][i - 1];
      if AnySignificant(ps[1..]) {
        var i :| 0 <= i < |ps[1..]| && ps[1..][i] < Threshold;
        assert ps[i + 1] < Threshold;
      }
    }
  }

  /** The four conclusions. */
  datatype Category = StrongPositive | CorrectedPositive | Neutral | Inconclusive

  /** The if/elif chain on (equivalent, phase-2 success). */
  function Classify(equivalent: bool, phase2: bool): (c: Category)
  {
    if equivalent && phase2 then StrongPositive
    else if !equivalent && phase2 then CorrectedPositive
    else if equivalent && !phase2 then Neutral
    else Inconclusive
  }

  /** Each conclusion is chosen by exactly one pair of flags: the four pairs
      and the four conclusions correspond one to one. */
  lemma ClassifyOneToOne(e1: bool, p1: bool, e2: bool, p2: bool)
    ensures Classify(e1, p1) == Classify(e2, p2) <==> e1 == e2 && p1 == p2
    ensures Classify(e1, p1) == StrongPositive <==> e1 && p1
    ensures Classify(e1, p1) == CorrectedPositive <==> !e1 && p1
    ensures Classify(e1, p1) == Neutral <==> e1 && !p1
    ensures Classify(e1, p1) == Inconclusive <==> !e1 && !p1
  {
  }

  function Title(c: Category): string
  {
    match c
    case StrongPositive => "NİHAİ SONUÇ: Güçlü Bulgular (Pozitif)"
    case CorrectedPositive => "NİHAİ SONUÇ: Düzeltilmiş Bulgular (Pozitif)"
    case Neutral => "NİHAİ SONUÇ: Etkisiz Müdahale (Nötr Bulgular)"
    case Inconclusive => "NİHAİ SONUÇ: Sonuçsuz Bulgular (Geçersiz)"
  }

  /** Different conclusions have different titles. */
  lemma TitlesDistinct(a: Category, b: Category)
    ensures Title(a) == Title(b) <==> a == b
  {
    if a != b {
      assert Title(a)[13] != Title(b)[13] || |Title(a)| != |Title(b)|;
    }
  }

  /** Every report text opens with this. */
  const ReportLead: string := "Yorum: "

  const StrongText: string := ReportLead + "Araştırma, gruplar arasında tam denklik (FAZ 1) sağlamıştır. İstatistiksel analizler (FAZ 2), müdahale grubunda korku ve/veya endişe düzeylerinde anlamlı bir azalma olduğunu doğrulamıştır. Bu bulgular, nefes egzersizi müdahalesinin, protokolde hedeflenen bağımlı değişkenler üzerinde anlamlı ve pozitif bir etkiye sahip olduğunu güçlü bir şekilde desteklemektedir."
  const NeutralText: string := ReportLead + "Araştırma, gruplar arasında tam denklik (FAZ 1) sağlamış olmasına rağmen, hipotez testleri (FAZ 2) müdahalenin istatistiksel olarak anlamlı bir fark yaratmadığını (p > 0.05) göstermiştir. Bu bulgular, nefes egzersizi müdahalesinin, bu çalışmanın koşulları ve örneklemi üzerinde ölçülebilir bir etkiye sahip olmadığını göstermektedir."
  const InconclusiveText: string := ReportLead + "Araştırma hem FAZ 1 denklik testlerinde başarısız olmuş hem de FAZ 2 hipotez testlerinde anlamlı bir sonuç üretememiştir. Gruplar arasındaki başlangıç farkları ve müdahalenin etkisizliği nedeniyle, araştırma sonuçları 'geçersiz' (inconclusive) kabul edilmelidir."

  const CorrectedPrefix: string := ReportLead + "Hipotezler (FAZ 2) müdahale lehine çıksa da, FAZ 1 denklik testlerinde ("
  const CorrectedSuffix: string := ") başarısızlık tespit edilmiştir. Bu 'karıştırıcı değişkenler', FAZ 2 ANCOVA analizine otomatik olarak eklenerek etkileri 'kontrol altına alınmıştır'. Düzeltilmiş sonuçlar, müdahalenin (denklik hatalarına rağmen) pozitif bir etkiye sahip olduğunu desteklemektedir."

  /** The report text of a conclusion; only the corrected one mentions the failing names. */
  function Template(c: Category, failed: seq<string>): string
  {
    match c
    case StrongPositive => StrongText
    case CorrectedPositive => CorrectedPrefix + Join(", ", failed) + CorrectedSuffix
    case Neutral => NeutralText
    case Inconclusive => InconclusiveText
  }

  /** Python's `str.isspace` for one character. */
  predicate IsSpace(ch: char)
  {
    var n := ch as int;
    n == 0x20 || 0x09 <= n <= 0x0D || 0x1C <= n <= 0x1F || n == 0x85 || n == 0xA0 ||
    n == 0x1680 || 0x2000 <= n <= 0x200A || n == 0x2028 || n == 0x2029 || n == 0x202F ||
    n == 0x205F || n == 0x3000
  }

  function StripStart(s: string): string
  {
    if s != [] && IsSpace(s[0]) then StripStart(s[1..]) else s
  }

  function StripEnd(s: string): string
  {
    if s != [] && IsSpace(s[|s| - 1]) then StripEnd(s[..|s| - 1]) else s
  }

  /** `s.strip()`: leading and trailing whitespace removed. */
  function Strip(s: string): string
  {
    StripEnd(StripStart(s))
  }

  /** Stripping leaves a text alone that starts and ends with a non-space character. */
  lemma StripKeeps(s: string)
    requires s != [] && !IsSpace(s[0]) && !IsSpace(s[|s| - 1])
    ensures Strip(s) == s
  {
  }

  /** A text of the form `ReportLead + body` with a full stop at the end is left alone by stripping. */
  lemma StripKeepsReport(t: string)
    requires |t| >= |ReportLead| && t[..|ReportLead|] == ReportLead && t[|t| - 1] == '.'
    ensures Strip(t) == t
  {
    assert t[0] == t[..|ReportLead|][0] == 'Y';
    StripKeeps(t);
  }

  /** Every template starts with "Yorum:" and ends with a full stop, so stripping it changes nothing. */
  lemma StripKeepsTemplates(c: Category, failed: seq<string>)
    ensures Strip(Template(c, failed)) == Template(c, failed)
  {
    var t := Template(c, failed);
    match c
    case CorrectedPositive =>
      var j := Join(", ", failed);
      assert t == ReportLead + (CorrectedPrefix[|ReportLead|..] + j + CorrectedSuffix);
      assert t[|t| - 1] == CorrectedSuffix[|CorrectedSuffix| - 1] == '.';
      StripKeepsReport(t);
    case StrongPositive =>
      assert t[|t| - 1] == '.';
      StripKeepsReport(t);
    case Neutral =>
      assert t[|t| - 1] == '.';
      StripKeepsReport(t);
    case Inconclusive =>
      assert t[|t| - 1] == '.';
      StripKeepsReport(t);
  }

  /** A text built as `front + Join(", ", names) + back` contains the joined list and each name. */
  lemma JoinedNamesOccur(names: seq<string>, front: string, back: string)
    ensures Occurs(Join(", ", names), front + Join(", ", names) + back)
    ensures forall k :: 0 <= k < |names| ==> Occurs(names[k], front + Join(", ", names) + back)
  {
    var j := Join(", ", names);
    OccursSelf(j);
    OccursInside(j, front, j, back);
    forall k | 0 <= k < |names| ensures Occurs(names[k], front + j + back) {
      JoinContains(", ", names, k);
      OccursInside(names[k], front, j, back);
    }
  }

  /** The corrected text names the failing variables: their comma-joined list,
      and so each of them, occurs in it. */
  lemma CorrectedTextNamesFailures(failed: seq<string>)
    ensures Occurs(Join(", ", failed), Template(CorrectedPositive, failed))
    ensures forall k :: 0 <= k < |failed| ==> Occurs(failed[k], Template(CorrectedPositive, failed))
  {
    JoinedNamesOccur(failed, CorrectedPrefix, CorrectedSuffix);
  }

  /** The other three texts are fixed: they do not depend on the failing names. */
  lemma FixedTemplates(c: Category, a: seq<string>, b: seq<string>)
    requires c != CorrectedPositive
    ensures Template(c, a) == Template(c, b)
  {
  }

  /** The title and the stored (stripped) text of the report for the two phase outcomes. */
  function Conclusion(equivalent: bool, hypothesisP: seq<real>, failed: seq<string>): (r: (string, string))
    ensures var c := Classify(equivalent, exists k :: 0 <= k < |hypothesisP| && hypothesisP[k] < Threshold);
            r == (Title(c), Template(c, failed))
  {
    var c := Classify(equivalent, AnySignificant(hypothesisP));
    AnySignificantIff(hypothesisP);
    StripKeepsTemplates(c, failed);
    (Title(c), Strip(Template(c, failed)))
  }
}
