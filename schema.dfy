/** The fixed schema of the trial data sheet and the Data Validator: which
    columns must be present, how numeric columns are coerced, and when the
    numeric data counts as empty. */
module Schema {
  import opened Seqs

  /** The ten numeric columns, in declared order. */
  const NumericColumns: seq<string> := [
    "yas", "gebelik_haftasi",
    "korku_vas_baseline", "korku_olcek_baseline",
    "korku_vas_4cm", "korku_olcek_4cm",
    "korku_vas_8cm", "korku_olcek_8cm",
    "endise_oxford_baseline", "endise_oxford_son_test"
  ]

  /** The seven categoric columns, in declared order; the first is the group label. */
  const CategoricColumns: seq<string> := [
    "grup", "egitim_durumu", "dogum_baslangici", "medeni_durum",
    "gelir_duzeyi", "calisma_durumu", "planli_gebelik_mi"
  ]

  const AllRequiredColumns: seq<string> := NumericColumns + CategoricColumns

  const GroupColumn: string := "grup"

  /** What the number parser reads from a text: a number, or nothing. */
  datatype Option<T> = None | Some(value: T)

  /** One cell of the uploaded sheet. After coercion a numeric column holds only
      `Missing` and `Number` cells (the NaN-or-float column pandas produces). */
  datatype Cell = Missing | Number(value: real) | Text(text: string)

  /** One subject: the cells of the row, by column name. */
  type Row = map<string, Cell>

  /** The uploaded sheet: its column headers and its rows. */
  datatype Frame = Frame(columns: seq<string>, rows: seq<Row>)

  /** The cell of `row` in `column`; a column the row lacks reads as missing. */
  function Get(row: Row, column: string): Cell
  {
    if column in row then row[column] else Missing
  }

  predicate Distinct(s: seq<string>)
  {
    forall i, j :: 0 <= i < j < |s| ==> s[i] != s[j]
  }

  /** The 17 required names are pairwise different, numeric and categoric alike. */
  lemma RequiredColumnsDistinct()
    ensures |AllRequiredColumns| == 17
    ensures Distinct(AllRequiredColumns)
    ensures GroupColumn in CategoricColumns && GroupColumn !in NumericColumns
  {
  }

  // ---------------------------------------------------------------- missing columns

  /** The required columns absent from `columns`, in the order of `AllRequiredColumns`. */
  function MissingColumns(columns: seq<string>): (r: seq<string>)
    ensures forall c :: c in r <==> c in AllRequiredColumns && c !in columns
    ensures IsSubsequence(r, AllRequiredColumns)
  {
    Filter(c => c !in columns, AllRequiredColumns)
  }

  /** Nothing is reported missing exactly when every required column is present. */
  lemma NoMissingColumns(columns: seq<string>)
    ensures MissingColumns(columns) == [] <==> forall c :: c in AllRequiredColumns ==> c in columns
  {
    var r := MissingColumns(columns);
    if r != [] {
      assert r[0] in r;
    }
  }

  /** The error text when columns are missing; it lists them joined by ", ". */
  function MissingColumnsMessage(missing: seq<string>): string
  {
    "HATA: Yüklediğiniz Excel dosyası bir Şablon dosyası değil. Şu sütunlar eksik: "
    + Join(", ", missing)
    + ". Lütfen 'Boş Excel Şablonunu İndir' butonunu kullanarak doğru şablonu indirin ve verilerinizi oraya girin."
  }

  /** The error text when no numeric value survived coercion. */
  const EmptyNumericMessage: string :=
    "HATA: Analiz edilecek sayısal veri bulunamadı. Yüklediğiniz Excel şablonundaki sayısal sütunlar ('yas', 'korku_vas_baseline' vb.) tamamen boş veya geçersiz metin ('yok', 'N/A' vb.) içeriyor. Lütfen verilerinizi kontrol edin."

  // ---------------------------------------------------------------- coercion

  /** `pd.to_numeric(cell, errors='coerce')`: a number stays, text becomes the
      number `parse` reads from it or missing when it reads none, and a missing
      cell stays missing. `parse` stands for pandas' number parser. */
  function Coerce(c: Cell, parse: string -> Option<real>): (r: Cell)
    ensures !r.Text?
    ensures c.Number? ==> r == c
    ensures c.Missing? ==> r.Missing?
    ensures c.Text? && parse(c.text).Some? ==> r == Number(parse(c.text).value)
    ensures c.Text? && parse(c.text).None? ==> r.Missing?
  {
    match c
    case Missing => Missing
    case Number(_) => c
    case Text(s) => if parse(s).Some? then Number(parse(s).value) else Missing
  }

  /** Coercing twice is coercing once. */
  lemma CoerceIdempotent(c: Cell, parse: string -> Option<real>)
    ensures Coerce(Coerce(c, parse), parse) == Coerce(c, parse)
  {
  }

  /** `row` with the cells of `columns` coerced and every other cell unchanged. */
  function CoercedRow(row: Row, columns: seq<string>, parse: string -> Option<real>): (r: Row)
    ensures r.Keys == row.Keys
  {
    map c | c in row :: if c in columns then Coerce(row[c], parse) else row[c]
  }

  /** The cleaned rows: one per uploaded row, with the same columns; a numeric
      cell is the coerced uploaded cell (so never text), any other cell keeps
      its uploaded value. */
  function Cleaned(rows: seq<Row>, parse: string -> Option<real>): (r: seq<Row>)
    ensures |r| == |rows|
    ensures forall j :: 0 <= j < |rows| ==> r[j].Keys == rows[j].Keys
    ensures forall j, c :: 0 <= j < |rows| ==>
      Get(r[j], c) == if c in NumericColumns then Coerce(Get(rows[j], c), parse) else Get(rows[j], c)
    ensures forall j, c :: 0 <= j < |rows| && c in NumericColumns ==> !Get(r[j], c).Text?
  {
    seq(|rows|, j requires 0 <= j < |rows| => CoercedRow(rows[j], NumericColumns, parse))
  }

  /** `df[column] = pd.to_numeric(df[column], errors='coerce')` on every row. */
  function CoerceColumn(rows: seq<Row>, column: string, parse: string -> Option<real>): seq<Row>
  {
    seq(|rows|, j requires 0 <= j < |rows| =>
      if column in rows[j] then rows[j][column := Coerce(rows[j][column], parse)] else rows[j])
  }

  /** The coercion loop: one numeric column after another is replaced by its coerced values. */
  method CoerceNumericColumns(rows: seq<Row>, parse: string -> Option<real>) returns (clean: seq<Row>)
    ensures clean == Cleaned(rows, parse)
  {
    clean := rows;
    for i := 0 to |NumericColumns|
      invariant |clean| == |rows|
      invariant forall j :: 0 <= j < |rows| ==> clean[j] == CoercedRow(rows[j], NumericColumns[..i], parse)
    {
      var column := NumericColumns[i];
      assert NumericColumns[..i + 1] == NumericColumns[..i] + [column];
      forall j | 0 <= j < |rows|
        ensures CoerceColumn(clean, column, parse)[j] == CoercedRow(rows[j], NumericColumns[..i + 1], parse)
      {
        var before := CoercedRow(rows[j], NumericColumns[..i], parse);
        var after := CoercedRow(rows[j], NumericColumns[..i + 1], parse);
        if column in before {
          CoerceIdempotent(rows[j][column], parse);
          assert before[column := Coerce(before[column], parse)] == after;
        } else {
          assert before == after;
        }
      }
      clean := CoerceColumn(clean, column, parse);
    }
    assert NumericColumns[..|NumericColumns|] == NumericColumns;
  }

  // ---------------------------------------------------------------- empty numeric data

  /** `df[NUMERIC_COLUMNS].isnull().all().all()`: no row holds a value in any
      numeric column (so in particular a sheet with no rows). */
  predicate AllNumericMissing(rows: seq<Row>)
  {
    forall j, c :: 0 <= j < |rows| && c in NumericColumns ==> Get(rows[j], c).Missing?
  }

  /** A sheet whose numeric cells are all blank or text the parser rejects has
      no numeric data once cleaned; one parsable numeric cell anywhere is enough
      for the analysis to go on, even if other numeric columns are empty. */
  lemma NoNumericData(rows: seq<Row>, parse: string -> Option<real>)
    ensures AllNumericMissing(Cleaned(rows, parse)) <==>
      forall j, c :: 0 <= j < |rows| && c in NumericColumns ==>
        Get(rows[j], c).Missing? || (Get(rows[j], c).Text? && parse(Get(rows[j], c).text).None?)
  {
    forall j, c | 0 <= j < |rows| && c in NumericColumns
      ensures Get(Cleaned(rows, parse)[j], c).Missing? <==>
        Get(rows[j], c).Missing? || (Get(rows[j], c).Text? && parse(Get(rows[j], c).text).None?)
    {
    }
  }

  // ---------------------------------------------------------------- the validator

  /** What validation yields: the error text, or the cleaned rows. */
  datatype Validated = Rejected(message: string) | Accepted(clean: seq<Row>)

  /** The Data Validator: missing required columns are reported first; otherwise
      the numeric columns are coerced and a sheet without any numeric value is
      rejected; anything else goes on to the analysis, cleaned. */
  method Validate(df: Frame, parse: string -> Option<real>) returns (v: Validated)
    ensures MissingColumns(df.columns) != [] ==> v == Rejected(MissingColumnsMessage(MissingColumns(df.columns)))
    ensures MissingColumns(df.columns) == [] && AllNumericMissing(Cleaned(df.rows, parse)) ==> v == Rejected(EmptyNumericMessage)
    ensures v.Accepted? <==> MissingColumns(df.columns) == [] && !AllNumericMissing(Cleaned(df.rows, parse))
    ensures v.Accepted? ==> v.clean == Cleaned(df.rows, parse)
  {
    var missing := MissingColumns(df.columns);
    if missing != [] {
      return Rejected(MissingColumnsMessage(missing));
    }
    var clean := CoerceNumericColumns(df.rows, parse);
    if AllNumericMissing(clean) {
      return Rejected(EmptyNumericMessage);
    }
    return Accepted(clean);
  }
}
