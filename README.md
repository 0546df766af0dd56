# Midwifery trial analysis: the decision logic, modelled in Dafny

The application takes the data sheet of a two-arm midwifery trial: a
breathing-exercise intervention group ("Müdahale") and a control group
("Kontrol"). It runs a fixed analysis, `run_full_analysis` in `app.py`:

- **Validation.** The 17 required columns must all be present. After numeric
  coercion, some numeric value must remain.
- **Phase 1: baseline equivalence.** Eleven p-values are computed. Five come
  from Welch's t-test on the two cohorts and six from chi-square tests on the
  whole sheet. A variable fails when its p-value is below 0.05.
- **Covariate selection.** Every failing variable that has a column in the
  correction map adds a term to the model formulas. A categoric column adds
  `C(col)`; a numeric one adds `col`.
- **Phase 2: hypotheses.** Five ANCOVA models are fitted, each on its own rows.
  The rows kept are those with the outcome, the group and the pretest all present.
- **Narrative.** The pair (equivalence held, some hypothesis significant) picks
  one of four conclusions, each with a title and a text.

`normalize_for_pdf` transliterates twelve Turkish letters to ASCII so the PDF
font can show them.

The statistical procedures are parameters of the model, each an arbitrary
function that returns a `real` p-value:

- `welch` is the Welch test;
- `chi2` is the chi-square test of the group-by-category table;
- `ancova` is the OLS fit with its type-III ANOVA table.

pandas' number parsing is likewise the parameter `parse: string -> Option<real>`.
Everything the analysis does with those values is modelled exactly:

- the thresholds and the order of the p-value dictionaries;
- the failing list and the correction string;
- the formulas and the per-hypothesis row filters;
- the four titles and texts, and the error messages.

Modules, one per component of the analysis:

- `Seqs`: filtering, counting, subsequences, `join`, substring occurrence.
- `Schema`: the column constants, cells, rows and frames, coercion and the validator.
- `Partition`: the two cohorts and column extraction.
- `Equivalence`: the phase-1 p-value dictionaries, dict merge and the failing list.
- `Covariates`: the correction map and the correction-string loop.
- `Hypotheses`: the five hypotheses, their formulas and their row filters.
- `Narrative`: phase-2 success, the four conclusions, their titles and texts, and `strip`.
- `PdfText`: `normalize_for_pdf`.
- `Analysis`: the result record and `run_full_analysis`.

The three loops of the source are methods with loops, proved against functions:

- the coercion loop over the numeric columns;
- the correction-string loop;
- the replacement loop of `normalize_for_pdf`.

The analysis itself is a method of sequential steps (validation, then the
analysis of the cleaned sheet); the result record is built once at the end.

The comprehensions, `any(...)` and the if/elif chain are functions.

## Model

| member | source | states |
|---|---|---|
| Schema.RequiredColumnsDistinct | app.py:16-27 | There are 17 required columns, all different. The group column `grup` is categoric, not numeric. |
| Schema.MissingColumns | app.py:154 | A name is reported missing iff it is required and absent from the sheet's columns. The list keeps the order of the required columns. |
| Schema.NoMissingColumns | app.py:154-155 | The missing list is empty iff every required column is present. |
| Schema.Coerce | app.py:160 | After coercion a cell is never text. A number stays the same number, and a blank stays blank. A text the parser reads becomes that number; a text it rejects becomes missing. |
| Schema.CoerceIdempotent | app.py:159-160 | Coercing a coerced cell changes nothing. |
| Schema.CoercedRow | app.py:158-160 | Coercing a row keeps exactly the same columns. |
| Schema.Cleaned | app.py:158-160 | The cleaned sheet has one row per uploaded row, with the same columns. A numeric cell is the coerced uploaded cell and never text; every other cell keeps its uploaded value. |
| Schema.CoerceNumericColumns | app.py:158-160 | The loop that coerces one numeric column after another yields exactly the cleaned sheet. |
| Schema.NoNumericData | app.py:162 | The cleaned numeric data is entirely missing iff every numeric cell of the upload is blank or text the parser rejects. One parsable numeric value anywhere lets the analysis go on. |
| Schema.Validate | app.py:154-163 | Missing columns give the missing-columns error, listing them. Otherwise, entirely missing numeric data gives the empty-data error. Otherwise the result is the cleaned sheet. It is rejected iff one of the two conditions holds. |
| Partition.Cohort | app.py:166-167 | The cohort holds exactly the rows whose `grup` is the given label, in their original order, as many of them as carry the label. |
| Partition.CohortsDisjoint | app.py:166-167 | No row is in both cohorts, and a row with any other label is in neither. Together they hold at most all rows. |
| Equivalence.DisplayNamesDistinct | app.py:179-193 | The eleven display names are pairwise different. |
| Equivalence.TestedColumnsInSchema | app.py:179-193 | The Welch tests use numeric columns. The chi-square tests use categoric columns other than `grup`. |
| Equivalence.NumericPValues | app.py:179-185 | The numeric dictionary has the five numeric names as its keys, in declared order. |
| Equivalence.CategoricPValues | app.py:186-193 | The categoric dictionary has the six categoric names as its keys, in declared order. |
| Equivalence.PutNew | app.py:197 | Putting a new key into an ordered dictionary appends the entry. |
| Equivalence.MergeDisjoint | app.py:197 | Merging `{**a, **b}` with distinct keys is `a` followed by `b`. |
| Equivalence.FailedNames | app.py:198 | A name is in the failing list iff its p-value is strictly below 0.05, so 0.05 passes. The length equals the number of failing entries. The list keeps dictionary order. |
| Equivalence.FailedNamesAppend | app.py:198 | The failing list of two concatenated dictionaries is the first one's failures, then the second one's. |
| Equivalence.EquivalentIff | app.py:199 | The failing list is empty iff every p-value is at least 0.05. |
| Equivalence.PhaseOneOrder | app.py:179-198 | The merged dictionary is the numeric dictionary followed by the categoric one, with the eleven names in that order. Its failing list is the numeric failures, then the categoric ones. |
| Covariates.CorrectionTermsAppend | app.py:205-211 | The terms for a concatenated failing list are the terms of each part, in order. |
| Covariates.RenderAppend | app.py:209-211 | The text of concatenated term lists is the concatenation of their texts. |
| Covariates.CorrectionTermsSpec | app.py:205-211 | There is one term per mapped failing name, and each is that name's term, in failing-list order. Unmapped names give nothing. |
| Covariates.TermsTagged | app.py:206-211 | Each term names a mapped column. It is a `C(...)` factor term iff the column is categoric. |
| Covariates.RenderEmpty | app.py:209-211 | A list of terms renders as the empty string iff it is empty. |
| Covariates.CorrectionEmptyIff | app.py:171-212 | The correction string is empty iff no failing name is in the correction map. |
| Covariates.BaselineScoresAddNothing | app.py:171-184 | Failing only on the three baseline-score variables adds no correction. |
| Covariates.MapAgreesWithTests | app.py:171-193 | Age and gestational week map to their numeric columns as linear terms. The six categoric variables map to their columns as factor terms. Nothing else is mapped. |
| Covariates.CorrectionFormulaPart | app.py:203-212 | The loop yields "" when equivalence held. Otherwise it yields the rendered terms of the mapped failing names, in order. |
| Hypotheses.HypothesesInSchema | app.py:215-225 | Each hypothesis regresses a numeric outcome on a different numeric pretest. |
| Hypotheses.BaseTextH1Vas | app.py:215 | The first base formula is `korku_vas_4cm ~ grup + korku_vas_baseline`. |
| Hypotheses.BaseTextH1Olcek | app.py:216 | The second base formula is `korku_olcek_4cm ~ grup + korku_olcek_baseline`. |
| Hypotheses.BaseTextH2Vas | app.py:217 | The third base formula is `korku_vas_8cm ~ grup + korku_vas_4cm`. |
| Hypotheses.BaseTextH2Olcek | app.py:218 | The fourth base formula is `korku_olcek_8cm ~ grup + korku_olcek_4cm`. |
| Hypotheses.BaseTextH3Oxford | app.py:219 | The fifth base formula is `endise_oxford_son_test ~ grup + endise_oxford_baseline`. |
| Hypotheses.FormulaTexts | app.py:215-225 | Each of the five fitted formulas is its fixed base string followed by the same correction string. |
| Hypotheses.HypothesisData | app.py:221-225 | A hypothesis's data is a subsequence of the cleaned rows. A row is in it iff its outcome, group and pretest cells are all present, and it has as many rows as are complete on those three columns. |
| Hypotheses.HypothesisPValues | app.py:221-228 | There are exactly five hypothesis p-values. |
| Hypotheses.FilteringIsPerHypothesis | app.py:221-225 | A row missing only the 4 cm VAS score is dropped from the two hypotheses that use it and kept by the other three. |
| Narrative.AnySignificantIff | app.py:229 | Phase 2 succeeds iff some hypothesis p-value is strictly below 0.05. |
| Narrative.ClassifyOneToOne | app.py:232-244 | The four flag combinations and the four conclusions correspond one to one. |
| Narrative.TitlesDistinct | app.py:233-243 | Different conclusions have different titles. |
| Narrative.StripKeeps | app.py:246 | `strip` leaves alone a non-empty text that starts and ends with a non-space character. |
| Narrative.StripKeepsReport | app.py:246 | `strip` leaves alone a text that starts with "Yorum: " and ends with a full stop. |
| Narrative.StripKeepsTemplates | app.py:234-246 | Stripping any of the four report texts changes nothing. |
| Narrative.JoinedNamesOccur | app.py:237-238 | A text built around `", ".join(names)` contains the joined list and each name. |
| Narrative.CorrectedTextNamesFailures | app.py:237-238 | The corrected-positive text contains the comma-joined failing names, and so each of them. |
| Narrative.FixedTemplates | app.py:232-244 | The other three texts do not depend on the failing names. |
| Narrative.Conclusion | app.py:228-246 | The title and stored text are those of the conclusion chosen by equivalence and by whether some p-value is below 0.05. |
| PdfText.ReplacementsShape | app.py:41-44 | The table has twelve different non-ASCII keys. Every value is ASCII, and no value is a key. |
| PdfText.Transliterated | app.py:39-47 | Transliteration keeps the length of the text. |
| PdfText.LookupCases | app.py:41-46 | A character that is no key is unchanged. A key becomes the value of a table entry for it. |
| PdfText.LookupSnoc | app.py:45-46 | Adding a table entry at the end changes only characters that no earlier entry replaces. |
| PdfText.SequentialIsLookup | app.py:45-46 | Applying the replacements one after another is the same as one lookup per character, because no replacement creates a letter another one removes. |
| PdfText.NormalizeForPdf | app.py:39-47 | The replacement loop yields the character-by-character transliteration of the text. |
| PdfText.AsciiSpec | app.py:41-46 | Each of the twelve letters becomes its ASCII counterpart, and every other character stays. |
| PdfText.NoTurkishLetterLeft | app.py:39-47 | The result contains none of the twelve letters. |
| PdfText.NormalizeIdempotent | app.py:39-47 | Transliterating twice is transliterating once. |
| Analysis.AnalyzeCleaned | app.py:165-246 | On a cleaned sheet, the result record holds the following, phase by phase:<br>- The two phase-1 dictionaries from `welch` on the cohorts and `chi2` on all rows.<br>- The failing list, numeric failures first.<br>- Equivalence, iff all eleven p-values are at least 0.05 and iff nothing fails.<br>- The correction: "" when equivalent, otherwise the mapped failures' terms.<br>- The five `ancova` p-values, each on its formula plus the correction and on its own rows.<br>- The title and text of the chosen conclusion. |
| Analysis.RunFullAnalysis | app.py:151-248 | Missing columns give only the missing-columns error. Entirely missing numeric data gives only the empty-data error. In every other case the record is a full result (no error) that describes the cleaned sheet as above. |
| Analysis.OnlyAgeFails | app.py:171-238 | When only age fails, the failing list is ["Yaş"] and the correction is " + yas". The corrected-positive text names "Yaş". |
| Analysis.EquivalentAndEffective | app.py:197-234 | When all baseline p-values are at least 0.05 and some hypothesis is significant, nothing fails, there is no correction and the conclusion is the strong positive one. |

## Left out

- The Streamlit interface is not modelled: tabs, sidebar, session state and the download buttons. It is presentation and host-framework state.
- Excel template creation and `pd.read_excel` are not modelled; they are file I/O. The model starts from a sheet already read into columns and rows.
- The PDF report assembly and the charts are not modelled; they are rendering through fpdf and plotly. `normalize_for_pdf` itself is modelled.
- Welch's t-test, `chi2_contingency` with `pd.crosstab`, and the OLS fit with the type-III table are not computed. They are the parameters `welch`, `chi2` and `ancova`, which receive exactly the series, the formula and the rows the analysis passes to them.
  - NaN p-values are not modelled: every p-value is a `real`. In the source a NaN p-value (for example Welch's test on a cohort with fewer than two values of a variable) compares false with 0.05, so that variable silently passes equivalence and that hypothesis does not count as significant.
  - Exceptions raised inside these libraries are not modelled, for example a model that cannot be fitted. The analysis does not catch them either.
- `pd.to_numeric(errors='coerce')` is not modelled; its number parsing is the parameter `parse`. Cells that already hold numbers stay, and blanks stay missing.
- The `KeyError` branch that reports a missing `grup` column (app.py:168-169) is not modelled. `grup` is a required column, so the earlier missing-columns check already returns before it.
- Analysis.RunFullAnalysis: that no test is run on an error path is not stated. The tests are pure parameters here, so running them or not cannot be observed.
- Schema.Get: a column a row lacks reads as missing. After validation every required column exists, so this matters only for the non-required columns, which the analysis never reads.
- `str(text)` in `normalize_for_pdf` is not modelled: the model transliterates strings only.
- The result dictionary filled field by field is modelled as a record built once at the end.
  - An error result is `ErrorReport(message)`; a success result is `Results(...)`, with the `error: None` field implied by that constructor.
  - No reader can observe the intermediate states, so building it once changes nothing visible.
- The correction string can be empty even when equivalence fails, because the three baseline-score variables have no entry in the correction map; the model keeps this.
- No dedicated error is produced for a failed model fit or for unexpected group labels: rows with other labels simply belong to neither cohort.
