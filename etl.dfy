/**
 * The restaurant ETL: per-city tables are normalised to one fixed schema
 * (clean_data), then concatenated and written over the destination table
 * (run_etl).
 */
module Etl {
  import opened Wrappers
  import opened Frames

  // ---------------------------------------------------------------------
  // Fixed configuration of clean_data
  // ---------------------------------------------------------------------

  const NumericCols: seq<string> :=
    ["rating", "num_reviews", "subrating_rate_food", "subrating_rate_service", "subrating_rate_atmosphere"]

  /** The output schema, in output order. */
  const RelevantCols: seq<string> :=
    ["name", "address", "cuisine", "rating", "price_level", "num_reviews",
     "subrating_rate_food", "subrating_rate_service", "subrating_rate_atmosphere", "url", "city"]

  const PriceMapping: map<string, string> :=
    map["€" := "Bajo", "€€ - €€€" := "Medio", "€€€€" := "Alto"]

  const NotSpecified := "No especificado"
  const Unavailable := "No disponible"

  /** The four values an output price_level can take. */
  const PriceLabels: set<string> := {"Bajo", "Medio", "Alto", NotSpecified}

  /** A number-parsing function standing for `pd.to_numeric` on one text cell. */
  type Parser = string -> Option<real>

  datatype EtlError =
    | NoFiles                   // the glob found no .csv file
    | Unreadable(stem: string)  // read_csv raised on this file
    | MissingColumn(name: string)  // clean_data indexed a column that is not there

  // ---------------------------------------------------------------------
  // Cell-level rules
  // ---------------------------------------------------------------------

  /** `.map(price_mapping).fillna('No especificado')` on one cell. */
  function PriceLabel(c: Cell): (r: Cell)
    ensures r.Str? && r.text in PriceLabels
  {
    if c.Str? && c.text in PriceMapping then Str(PriceMapping[c.text]) else Str(NotSpecified)
  }

  /** `pd.to_numeric(errors='coerce').fillna(0)` on one cell. */
  function Coerce(parse: Parser, c: Cell): (r: Cell)
    ensures r.Num?
  {
    match c
    case Null => Num(0.0)
    case Num(x) => Num(x)
    case Str(s) => match parse(s)
      case Some(x) => Num(x)
      case None => Num(0.0)
  }

  /** The value synthesised for a relevant column the input lacks. */
  function Default(col: string): (d: Cell)
  {
    if col in NumericCols then Num(0.0) else Str(Unavailable)
  }

  function FillNa(c: Cell, v: Cell): (r: Cell)
  {
    if c.Null? then v else c
  }

  // ---------------------------------------------------------------------
  // Row-wise reference definition of clean_data
  // ---------------------------------------------------------------------

  /** The output cell of column `col` for input row `row`. */
  function CleanCell(parse: Parser, row: Row, city: string, col: string): (cell: Cell)
    requires "price_level" in row
  {
    if col == "city" then Str(city)
    else if col == "price_level" then PriceLabel(row["price_level"])
    else if col !in row then Default(col)
    else if col in NumericCols then Coerce(parse, row[col])
    else if col == "cuisine" then FillNa(row[col], Str(NotSpecified))
    else row[col]
  }

  /** One output row: exactly the relevant columns, each cleaned as the source does. */
  function CleanRow(parse: Parser, row: Row, city: string): (r: Row)
    requires "price_level" in row
    ensures r.Keys == set c | c in RelevantCols
    ensures "city" in r && r["city"] == Str(city)
    ensures "price_level" in r && r["price_level"].Str? && r["price_level"].text in PriceLabels
    ensures forall c :: c in NumericCols ==> c in r && r[c].Num?
    ensures "cuisine" in r && r["cuisine"] != Null
    ensures forall c :: c in RelevantCols && c != "city" && c !in row ==> r[c] == Default(c)
  {
    CleanCellFacts(parse, row, city);
    NamedColumnsRelevant();
    map c | c in RelevantCols :: CleanCell(parse, row, city, c)
  }

  /** The columns clean_data names one by one are relevant columns. */
  lemma NamedColumnsRelevant()
    ensures "city" in RelevantCols && "price_level" in RelevantCols && "cuisine" in RelevantCols
    ensures "name" in RelevantCols && "address" in RelevantCols && "url" in RelevantCols
    ensures forall c :: c in NumericCols ==> c in RelevantCols
  {
    assert RelevantCols[10] == "city" && RelevantCols[4] == "price_level" && RelevantCols[2] == "cuisine";
    assert RelevantCols[0] == "name" && RelevantCols[1] == "address" && RelevantCols[9] == "url";
    assert NumericCols == [RelevantCols[3]] + RelevantCols[5..9];
  }

  /** The cells CleanRow's contract speaks of, column by column. */
  lemma CleanCellFacts(parse: Parser, row: Row, city: string)
    requires "price_level" in row
    ensures forall c :: c != "city" && c !in row ==> CleanCell(parse, row, city, c) == Default(c)
    ensures forall c :: c in NumericCols ==> CleanCell(parse, row, city, c).Num?
    ensures CleanCell(parse, row, city, "cuisine") != Null
  {
  }

  lemma RelevantColsDistinct()
    ensures forall i, j :: 0 <= i < j < |RelevantCols| ==> RelevantCols[i] != RelevantCols[j]
  {
  }

  /** The whole cleaned table: the fixed schema, one cleaned row per input row, in order. */
  function CleanTable(parse: Parser, df: Frame, city: string): (t: Frame)
    requires WellFormed(df) && "price_level" in df.columns
    ensures WellFormed(t)
    ensures t.columns == RelevantCols
    ensures |t.rows| == |df.rows|
    ensures forall i :: 0 <= i < |t.rows| ==> t.rows[i] == CleanRow(parse, df.rows[i], city)
  {
    assert "price_level" in ColumnSet(df);
    RelevantColsDistinct();
    var t := Frame(RelevantCols, seq(|df.rows|, i requires 0 <= i < |df.rows| => CleanRow(parse, df.rows[i], city)));
    assert ColumnSet(t) == set c | c in RelevantCols;
    t
  }

  // ---------------------------------------------------------------------
  // clean_data, column by column as the source runs it
  // ---------------------------------------------------------------------

  /** A row after the numeric columns in `cols` have been coerced. */
  function CoercedRow(parse: Parser, row: Row, cols: seq<string>): (r: Row)
  {
    map c | c in row :: if c in cols then Coerce(parse, row[c]) else row[c]
  }

  /** A row of `final_df` after the columns `cols` have been added to it. */
  function ProjectedRow(row: Row, cols: seq<string>): (r: Row)
  {
    map c | c in cols :: if c in row then row[c] else Default(c)
  }

  /** Coercing one more numeric column extends the coerced prefix by that column. */
  lemma CoerceStep(parse: Parser, tagged: Row, row: Row, k: nat)
    requires k < |NumericCols| && row == CoercedRow(parse, tagged, NumericCols[..k])
    ensures var col := NumericCols[k];
      (if col in row then row[col := Coerce(parse, row[col])] else row)
        == CoercedRow(parse, tagged, NumericCols[..k + 1])
  {
    var col := NumericCols[k];
    assert NumericCols[..k + 1] == NumericCols[..k] + [col];
    var next := CoercedRow(parse, tagged, NumericCols[..k + 1]);
    var got := if col in row then row[col := Coerce(parse, row[col])] else row;
    assert got.Keys == next.Keys;
    forall c | c in got
      ensures got[c] == next[c]
    {
      if c == col && c in NumericCols[..k] {
        // coercion is idempotent: a coerced cell is a number and stays as it is
        assert row[c].Num?;
      }
    }
  }

  /** Adding column RelevantCols[k] to final_df extends the projected prefix by it. */
  lemma ProjectStep(row: Row, prev: Row, k: nat)
    requires k < |RelevantCols| && prev == ProjectedRow(row, RelevantCols[..k])
    ensures var col := RelevantCols[k];
      prev[col := if col in row then row[col] else Default(col)] == ProjectedRow(row, RelevantCols[..k + 1])
  {
    assert RelevantCols[..k + 1] == RelevantCols[..k] + [RelevantCols[k]];
  }

  /** A row after clean_data's city tag and price mapping. */
  function TaggedRow(row: Row, city: string): (r: Row)
    requires "price_level" in row
  {
    row["city" := Str(city)]["price_level" := PriceLabel(row["price_level"])]
  }

  /** A row of final_df after clean_data's cuisine backfill. */
  function BackfilledRow(row: Row): (r: Row)
    requires "cuisine" in row
  {
    row["cuisine" := FillNa(row["cuisine"], Str(NotSpecified))]
  }

  /** The pipeline applied to one row; one row of final_df before its cuisine backfill. */
  function PipelineRow(parse: Parser, row: Row, city: string): (r: Row)
    requires "price_level" in row
  {
    ProjectedRow(CoercedRow(parse, TaggedRow(row, city), NumericCols), RelevantCols)
  }

  /** The column-wise steps of clean_data, applied to one row, give the reference row. */
  lemma PipelineMatchesCleanRow(parse: Parser, row: Row, city: string)
    requires "price_level" in row
    ensures BackfilledRow(PipelineRow(parse, row, city)) == CleanRow(parse, row, city)
  {
    var p := PipelineRow(parse, row, city);
    var q := BackfilledRow(p);
    var r := CleanRow(parse, row, city);
    assert q.Keys == r.Keys;
    forall c | c in r
      ensures q[c] == r[c]
    {
      PipelineCell(parse, row, city, c);
    }
  }

  /** One cell of the column-wise pipeline, followed through tag, coercion, projection and backfill. */
  lemma PipelineCell(parse: Parser, row: Row, city: string, c: string)
    requires "price_level" in row && c in RelevantCols
    ensures var p := PipelineRow(parse, row, city);
      c in p && "cuisine" in p && BackfilledRow(p)[c] == CleanCell(parse, row, city, c)
  {
    NamedColumnsRelevant();
    if c == "city" {
      PipelineTagCell(parse, row, city);
    } else if c == "price_level" {
      PipelinePriceCell(parse, row, city);
    } else {
      PipelineOtherCell(parse, row, city, c);
    }
  }

  /** The city cell: tagged, then neither coerced nor backfilled. */
  lemma PipelineTagCell(parse: Parser, row: Row, city: string)
    requires "price_level" in row
    ensures var p := PipelineRow(parse, row, city);
      "city" in p && "cuisine" in p && BackfilledRow(p)["city"] == Str(city)
  {
    var t := TaggedRow(row, city);
    var co := CoercedRow(parse, t, NumericCols);
    NamedColumnsRelevant();
    assert t["city"] == Str(city);
    assert !("city" in NumericCols);
    assert co["city"] == Str(city);
  }

  /** The price_level cell: mapped, then neither coerced nor backfilled. */
  lemma PipelinePriceCell(parse: Parser, row: Row, city: string)
    requires "price_level" in row
    ensures var p := PipelineRow(parse, row, city);
      "price_level" in p && "cuisine" in p && BackfilledRow(p)["price_level"] == PriceLabel(row["price_level"])
  {
    var t := TaggedRow(row, city);
    var co := CoercedRow(parse, t, NumericCols);
    NamedColumnsRelevant();
    assert t["price_level"] == PriceLabel(row["price_level"]);
    assert !("price_level" in NumericCols);
    assert co["price_level"] == PriceLabel(row["price_level"]);
  }

  /** Any other relevant cell: copied or defaulted, coerced when numeric, backfilled when cuisine. */
  lemma PipelineOtherCell(parse: Parser, row: Row, city: string, c: string)
    requires "price_level" in row && c in RelevantCols && c != "city" && c != "price_level"
    ensures var p := PipelineRow(parse, row, city);
      c in p && "cuisine" in p && BackfilledRow(p)[c] == CleanCell(parse, row, city, c)
  {
    var t := TaggedRow(row, city);
    var co := CoercedRow(parse, t, NumericCols);
    var p := ProjectedRow(co, RelevantCols);
    NamedColumnsRelevant();
    assert c in t <==> c in row;
    assert c in row ==> t[c] == row[c];
    if c in row {
      if c in NumericCols {
        assert co[c] == Coerce(parse, row[c]);
        assert c != "cuisine";
      } else {
        assert co[c] == row[c];
      }
    } else {
      assert c !in co;
      assert p[c] == Default(c);
      assert c == "cuisine" ==> FillNa(p[c], Str(NotSpecified)) == p[c];
    }
  }

  /**
   * The loop over numeric_cols: every numeric column the frame has is
   * coerced, every other column is left as it is.
   */
  method CoerceNumericColumns(parse: Parser, df0: Frame) returns (df: Frame)
    requires WellFormed(df0)
    ensures WellFormed(df) && df.columns == df0.columns && |df.rows| == |df0.rows|
    ensures forall i :: 0 <= i < |df.rows| ==> df.rows[i] == CoercedRow(parse, df0.rows[i], NumericCols)
  {
    var n := |df0.rows|;
    df := df0;
    var k := 0;
    while k < |NumericCols|
      invariant 0 <= k <= |NumericCols|
      invariant WellFormed(df) && df.columns == df0.columns && |df.rows| == n
      invariant forall i :: 0 <= i < n ==> df.rows[i] == CoercedRow(parse, df0.rows[i], NumericCols[..k])
    {
      var col := NumericCols[k];
      ghost var prev := df;
      if col in df.columns {
        df := SetColumn(df, col, seq(n, i requires 0 <= i < n => Coerce(parse, Column(df, col)[i])));
      }
      forall i | 0 <= i < n
        ensures df.rows[i] == CoercedRow(parse, df0.rows[i], NumericCols[..k + 1])
      {
        assert col in prev.rows[i] <==> col in prev.columns;
        CoerceStep(parse, df0.rows[i], prev.rows[i], k);
      }
      k := k + 1;
    }
    assert NumericCols[..|NumericCols|] == NumericCols;
  }

  /**
   * The loop that builds final_df: every relevant column, in schema order,
   * is copied from the frame when present and synthesised otherwise.
   */
  method ProjectColumns(df: Frame) returns (final: Frame)
    requires WellFormed(df)
    ensures WellFormed(final) && final.columns == RelevantCols && |final.rows| == |df.rows|
    ensures forall i :: 0 <= i < |final.rows| ==> final.rows[i] == ProjectedRow(df.rows[i], RelevantCols)
  {
    var n := |df.rows|;
    final := Frame([], seq(n, _ => map[]));
    var k := 0;
    while k < |RelevantCols|
      invariant 0 <= k <= |RelevantCols|
      invariant WellFormed(final) && final.columns == RelevantCols[..k] && |final.rows| == n
      invariant forall i :: 0 <= i < n ==> final.rows[i] == ProjectedRow(df.rows[i], RelevantCols[..k])
    {
      var col := RelevantCols[k];
      ghost var prev := final;
      RelevantColsDistinct();
      assert col !in final.columns;
      if col in df.columns {
        final := SetColumn(final, col, Column(df, col));
      } else {
        final := SetColumn(final, col, Constant(n, if col in NumericCols then Num(0.0) else Str(Unavailable)));
      }
      forall i | 0 <= i < n
        ensures final.rows[i] == ProjectedRow(df.rows[i], RelevantCols[..k + 1])
      {
        assert col in df.rows[i] <==> col in df.columns;
        ProjectStep(df.rows[i], prev.rows[i], k);
      }
      assert RelevantCols[..k + 1] == RelevantCols[..k] + [col];
      k := k + 1;
    }
    assert RelevantCols[..|RelevantCols|] == RelevantCols;
  }

  /**
   * clean_data: tags every row with the city, maps price_level, coerces the
   * numeric columns, projects onto the fixed schema and backfills cuisine.
   * It fails (KeyError) exactly when the input has no price_level column.
   */
  method CleanData(parse: Parser, df0: Frame, cityName: string) returns (r: Result<Frame, EtlError>)
    requires WellFormed(df0)
    ensures "price_level" !in df0.columns <==> r == Failure(MissingColumn("price_level"))
    ensures "price_level" in df0.columns ==> r == Success(CleanTable(parse, df0, cityName))
  {
    var n := |df0.rows|;
    var df := SetColumn(df0, "city", Constant(n, Str(cityName)));
    if "price_level" !in df.columns {
      return Failure(MissingColumn("price_level"));
    }
    var prices := Column(df, "price_level");
    df := SetColumn(df, "price_level", seq(n, i requires 0 <= i < n => PriceLabel(prices[i])));
    TaggedRows(df0, cityName, df);
    var coerced := CoerceNumericColumns(parse, df);
    var final := ProjectColumns(coerced);
    NamedColumnsRelevant();
    var cuisines := Column(final, "cuisine");
    var backfilled := SetColumn(final, "cuisine", seq(n, i requires 0 <= i < n => FillNa(cuisines[i], Str(NotSpecified))));
    PipelineRows(parse, df0, cityName, df, coerced, final, backfilled);
    return Success(backfilled);
  }

  /** After the city tag and the price mapping every row is the input row tagged with city and price label. */
  lemma TaggedRows(df0: Frame, cityName: string, df: Frame)
    requires WellFormed(df0) && "price_level" in df0.columns
    requires |df.rows| == |df0.rows|
    requires forall i :: 0 <= i < |df.rows| ==>
      df.rows[i] == df0.rows[i]["city" := Str(cityName)]["price_level" := PriceLabel(df0.rows[i]["city" := Str(cityName)]["price_level"])]
    ensures forall i :: 0 <= i < |df.rows| ==> df.rows[i] == TaggedRow(df0.rows[i], cityName)
  {
    forall i | 0 <= i < |df.rows|
      ensures df.rows[i] == TaggedRow(df0.rows[i], cityName)
    {
      assert "price_level" in ColumnSet(df0);
    }
  }

  /** The frames clean_data builds step by step end in the reference table. */
  lemma PipelineRows(parse: Parser, df0: Frame, cityName: string, tagged: Frame, coerced: Frame, final: Frame, backfilled: Frame)
    requires WellFormed(df0) && "price_level" in df0.columns
    requires |tagged.rows| == |coerced.rows| == |final.rows| == |backfilled.rows| == |df0.rows|
    requires forall i :: 0 <= i < |df0.rows| ==> tagged.rows[i] == TaggedRow(df0.rows[i], cityName)
    requires forall i :: 0 <= i < |df0.rows| ==> coerced.rows[i] == CoercedRow(parse, tagged.rows[i], NumericCols)
    requires forall i :: 0 <= i < |df0.rows| ==> final.rows[i] == ProjectedRow(coerced.rows[i], RelevantCols)
    requires forall i :: 0 <= i < |df0.rows| ==> "cuisine" in final.rows[i] && backfilled.rows[i] == BackfilledRow(final.rows[i])
    requires backfilled.columns == RelevantCols
    ensures backfilled == CleanTable(parse, df0, cityName)
  {
    forall i | 0 <= i < |df0.rows|
      ensures backfilled.rows[i] == CleanRow(parse, df0.rows[i], cityName)
    {
      assert "price_level" in ColumnSet(df0);
      PipelineMatchesCleanRow(parse, df0.rows[i], cityName);
    }
    assert backfilled.rows == CleanTable(parse, df0, cityName).rows;
  }

  // ---------------------------------------------------------------------
  // Properties of the cleaned rows
  // ---------------------------------------------------------------------

  /** price_level is Bajo, Medio or Alto exactly for the three mapped symbols, otherwise "No especificado". */
  lemma PriceLevelMapping(parse: Parser, row: Row, city: string)
    requires "price_level" in row
    ensures var out := CleanRow(parse, row, city)["price_level"];
      && (out == Str("Bajo") <==> row["price_level"] == Str("€"))
      && (out == Str("Medio") <==> row["price_level"] == Str("€€ - €€€"))
      && (out == Str("Alto") <==> row["price_level"] == Str("€€€€"))
      && (out == Str(NotSpecified) <==> row["price_level"] !in {Str("€"), Str("€€ - €€€"), Str("€€€€")})
  {
  }

  /** A present numeric column keeps a number, takes the parsed value of a text, and 0 otherwise. */
  lemma NumericCoercion(parse: Parser, row: Row, city: string, col: string)
    requires "price_level" in row && col in NumericCols && col in row
    ensures var out := CleanRow(parse, row, city)[col];
      && (row[col].Num? ==> out == row[col])
      && (row[col].Null? ==> out == Num(0.0))
      && (row[col].Str? && parse(row[col].text).None? ==> out == Num(0.0))
      && (row[col].Str? && parse(row[col].text).Some? ==> out == Num(parse(row[col].text).value))
  {
  }

  /**
   * An absent cuisine column becomes "No disponible"; a present one has its
   * nulls replaced by "No especificado" and its other cells kept.
   */
  lemma CuisineBackfill(parse: Parser, row: Row, city: string)
    requires "price_level" in row
    ensures var out := CleanRow(parse, row, city)["cuisine"];
      && ("cuisine" !in row ==> out == Str(Unavailable))
      && ("cuisine" in row && row["cuisine"].Null? ==> out == Str(NotSpecified))
      && ("cuisine" in row && !row["cuisine"].Null? ==> out == row["cuisine"])
  {
  }

  /** name, address and url pass through unchanged when present, nulls included. */
  lemma TextColumnsPassThrough(parse: Parser, row: Row, city: string, col: string)
    requires "price_level" in row && col in {"name", "address", "url"}
    ensures col in row ==> CleanRow(parse, row, city)[col] == row[col]
    ensures col !in row ==> CleanRow(parse, row, city)[col] == Str(Unavailable)
  {
    NamedColumnsRelevant();
    assert col != "city" && col != "price_level" && col != "cuisine" && col !in NumericCols;
  }

  // ---------------------------------------------------------------------
  // City label: stem.replace('_', ' ').capitalize()
  // ---------------------------------------------------------------------

  predicate IsUpper(c: char) { 'A' <= c <= 'Z' }
  predicate IsLower(c: char) { 'a' <= c <= 'z' }

  function ToUpper(c: char): char
  {
    if IsLower(c) then (c as int - 32) as char else c
  }

  function ToLower(c: char): char
  {
    if IsUpper(c) then (c as int + 32) as char else c
  }

  /** `s.replace(from, to)` for single characters. */
  function ReplaceChar(s: string, from: char, to: char): (r: string)
    ensures |r| == |s|
    ensures forall i :: 0 <= i < |s| ==> r[i] == (if s[i] == from then to else s[i])
    ensures from != to ==> from !in r
  {
    seq(|s|, i requires 0 <= i < |s| => if s[i] == from then to else s[i])
  }

  /** `s.capitalize()`: first character upper case, the rest lower case. */
  function Capitalize(s: string): (r: string)
    ensures |r| == |s|
    ensures |s| > 0 ==> r[0] == ToUpper(s[0])
    ensures forall i :: 0 < i < |s| ==> r[i] == ToLower(s[i])
  {
    if s == [] then [] else [ToUpper(s[0])] + seq(|s| - 1, i requires 0 <= i < |s| - 1 => ToLower(s[i + 1]))
  }

  /** What case mapping does to one character. */
  lemma CaseFacts(c: char)
    ensures ToLower(ToUpper(c)) == ToLower(c) && ToLower(ToLower(c)) == ToLower(c)
    ensures !IsLower(ToUpper(c)) && !IsUpper(ToLower(c))
    ensures ToUpper(c) == '_' ==> c == '_'
    ensures ToLower(c) == '_' ==> c == '_'
  {
  }

  /**
   * The city label run_etl derives from a file stem: the stem with every '_' turned into a space,
   * equal to it up to letter case, with an upper-case first letter and
   * lower-case letters elsewhere.
   */
  function CityLabel(stem: string): (r: string)
    ensures |r| == |stem|
    ensures forall i :: 0 <= i < |r| ==> r[i] != '_'
    ensures forall i :: 0 <= i < |r| ==> ToLower(r[i]) == ToLower(if stem[i] == '_' then ' ' else stem[i])
    ensures |r| > 0 ==> !IsLower(r[0])
    ensures forall i :: 0 < i < |r| ==> !IsUpper(r[i])
  {
    var spaced := ReplaceChar(stem, '_', ' ');
    var r := Capitalize(spaced);
    forall i | 0 <= i < |r|
      ensures r[i] != '_' && ToLower(r[i]) == ToLower(spaced[i])
      ensures i == 0 ==> !IsLower(r[i])
      ensures i > 0 ==> !IsUpper(r[i])
    {
      CaseFacts(spaced[i]);
    }
    r
  }

  /** The contract of CityLabel determines its result: any string meeting it is the label. */
  lemma CityLabelUnique(stem: string, r: string)
    requires |r| == |stem|
    requires forall i :: 0 <= i < |r| ==> ToLower(r[i]) == ToLower(if stem[i] == '_' then ' ' else stem[i])
    requires |r| > 0 ==> !IsLower(r[0])
    requires forall i :: 0 < i < |r| ==> !IsUpper(r[i])
    ensures r == CityLabel(stem)
  {
    var l := CityLabel(stem);
    forall i | 0 <= i < |r|
      ensures r[i] == l[i]
    {
      assert ToLower(r[i]) == ToLower(l[i]);
    }
  }

  /** The example run_etl's own comment gives for the city label. */
  lemma CityLabelExample()
    ensures CityLabel("palma_de_mallorca") == "Palma de mallorca"
  {
    SpacedExample();
    CapitalizedExample();
  }

  lemma SpacedExample()
    ensures ReplaceChar("palma_de_mallorca", '_', ' ') == "palma de mallorca"
  {
  }

  lemma CapitalizedExample()
    ensures Capitalize("palma de mallorca") == "Palma de mallorca"
  {
    var r := Capitalize("palma de mallorca");
    assert |r| == 17;
  }

  // ---------------------------------------------------------------------
  // run_etl: clean every file, concatenate, replace the destination table
  // ---------------------------------------------------------------------

  /** One discovered .csv file: its stem and what read_csv made of it (None: read_csv raised). */
  datatype SourceFile = SourceFile(stem: string, contents: Option<Frame>)

  predicate FilesWellFormed(files: seq<SourceFile>)
  {
    forall k :: 0 <= k < |files| && files[k].contents.Some? ==> WellFormed(files[k].contents.value)
  }

  /** A file the loop body gets through without an exception. */
  predicate Loadable(f: SourceFile)
  {
    f.contents.Some? && "price_level" in f.contents.value.columns
  }

  /** run_etl's loop body for one file: read it, then clean it under its city label. */
  function CleanFile(parse: Parser, f: SourceFile): (r: Result<Frame, EtlError>)
    requires f.contents.Some? ==> WellFormed(f.contents.value)
    ensures r.Success? <==> Loadable(f)
  {
    match f.contents
    case None => Failure(Unreadable(f.stem))
    case Some(df) =>
      if "price_level" in df.columns then Success(CleanTable(parse, df, CityLabel(f.stem)))
      else Failure(MissingColumn("price_level"))
  }

  /**
   * The per-file loop: the cleaned tables in file order, or the error of the
   * first file that raises.
   */
  function CleanAll(parse: Parser, files: seq<SourceFile>): (r: Result<seq<Frame>, EtlError>)
    requires FilesWellFormed(files)
    ensures r.Success? <==> forall k :: 0 <= k < |files| ==> Loadable(files[k])
    ensures r.Success? ==> |r.value| == |files|
    ensures r.Success? ==> forall k :: 0 <= k < |files| ==> CleanFile(parse, files[k]) == Success(r.value[k])
    ensures r.Failure? ==>
      exists k :: (0 <= k < |files| && CleanFile(parse, files[k]) == Failure(r.error) &&
                   forall j :: 0 <= j < k ==> Loadable(files[j]))
    decreases |files|
  {
    if files == [] then Success([])
    else
      var last := files[|files| - 1];
      var init := files[..|files| - 1];
      assert forall k :: 0 <= k < |init| ==> init[k] == files[k];
      match CleanAll(parse, init)
      case Failure(e) => Failure(e)
      case Success(ts) =>
        match CleanFile(parse, last)
        case Failure(e) => Failure(e)
        case Success(t) => Success(ts + [t])
  }

  /** One more iteration of the loop: CleanAll of a longer prefix, from the shorter one. */
  lemma CleanAllStep(parse: Parser, files: seq<SourceFile>, k: nat, all: seq<Frame>)
    requires FilesWellFormed(files) && k < |files|
    requires CleanAll(parse, files[..k]) == Success(all)
    ensures CleanAll(parse, files[..k + 1]) == match CleanFile(parse, files[k])
      case Success(t) => Success(all + [t])
      case Failure(e) => Failure(e)
  {
    assert files[..k + 1][..k] == files[..k];
  }

  /** Once a prefix of the files fails, the whole run fails with the same error. */
  lemma {:induction false} FailurePersists(parse: Parser, files: seq<SourceFile>, k: nat)
    requires FilesWellFormed(files) && k <= |files|
    requires CleanAll(parse, files[..k]).Failure?
    ensures CleanAll(parse, files) == CleanAll(parse, files[..k])
    decreases |files| - k
  {
    if k < |files| {
      var next := files[..k + 1];
      assert next[..|next| - 1] == files[..k];
      assert CleanAll(parse, next) == CleanAll(parse, files[..k]);
      FailurePersists(parse, files, k + 1);
      assert CleanAll(parse, files) == CleanAll(parse, files[..k]);
    } else {
      assert files[..k] == files;
      assert CleanAll(parse, files) == CleanAll(parse, files[..k]);
    }
  }

  /** `pd.concat(..., ignore_index=True)` on tables that share their columns: the rows, table after table. */
  function ConcatRows(ts: seq<Frame>): (r: seq<Row>)
    ensures forall row :: row in r <==> exists k :: 0 <= k < |ts| && row in ts[k].rows
    decreases |ts|
  {
    if ts == [] then []
    else
      var init := ts[..|ts| - 1];
      assert forall k :: 0 <= k < |init| ==> init[k] == ts[k];
      ConcatRows(init) + ts[|ts| - 1].rows
  }

  function TotalRows(ts: seq<Frame>): (n: nat)
    decreases |ts|
  {
    if ts == [] then 0 else TotalRows(ts[..|ts| - 1]) + |ts[|ts| - 1].rows|
  }

  /** The number of rows read from the files. */
  function InputRows(files: seq<SourceFile>): (n: nat)
    decreases |files|
  {
    if files == [] then 0
    else
      var last := files[|files| - 1];
      InputRows(files[..|files| - 1]) + (if last.contents.Some? then |last.contents.value.rows| else 0)
  }

  lemma {:induction false} ConcatRowCount(ts: seq<Frame>)
    ensures |ConcatRows(ts)| == TotalRows(ts)
    decreases |ts|
  {
    if ts != [] {
      ConcatRowCount(ts[..|ts| - 1]);
    }
  }

  /** Row i of table k sits at offset TotalRows(ts[..k]) + i of the concatenation. */
  lemma {:induction false} ConcatRowsAt(ts: seq<Frame>, k: nat, i: nat)
    requires k < |ts| && i < |ts[k].rows|
    ensures TotalRows(ts[..k]) + i < |ConcatRows(ts)|
    ensures ConcatRows(ts)[TotalRows(ts[..k]) + i] == ts[k].rows[i]
    decreases |ts|
  {
    var init := ts[..|ts| - 1];
    ConcatRowCount(ts);
    ConcatRowCount(init);
    if k < |ts| - 1 {
      ConcatRowsAt(init, k, i);
      assert init[..k] == ts[..k];
      assert init[k] == ts[k];
    } else {
      assert ts[..k] == init;
    }
  }

  /** Cleaning keeps each file's row count, so the tables hold as many rows as the files. */
  lemma {:induction false} CleanAllRowCount(parse: Parser, files: seq<SourceFile>)
    requires FilesWellFormed(files) && CleanAll(parse, files).Success?
    ensures TotalRows(CleanAll(parse, files).value) == InputRows(files)
    decreases |files|
  {
    if files != [] {
      var init := files[..|files| - 1];
      assert forall k :: 0 <= k < |init| ==> init[k] == files[k];
      CleanAllRowCount(parse, init);
    }
  }

  /** The table run_etl writes, or why it writes nothing. */
  function EtlRun(parse: Parser, files: seq<SourceFile>): (r: Result<Frame, EtlError>)
    requires FilesWellFormed(files)
    ensures files == [] ==> r == Failure(NoFiles)
    ensures r.Success? <==> files != [] && forall k :: 0 <= k < |files| ==> Loadable(files[k])
    ensures r.Success? ==> r.value.columns == RelevantCols
  {
    if files == [] then Failure(NoFiles)
    else
      match CleanAll(parse, files)
      case Failure(e) => Failure(e)
      case Success(ts) => Success(Frame(RelevantCols, ConcatRows(ts)))
  }

  /** The destination table after a run that found it holding `before`. */
  function AfterRun(parse: Parser, files: seq<SourceFile>, before: Option<Frame>): (after: Option<Frame>)
    requires FilesWellFormed(files)
  {
    match EtlRun(parse, files)
    case Success(t) => Some(t)
    case Failure(_) => before
  }

  /** A successful run writes one row per input row. */
  lemma EtlRowCount(parse: Parser, files: seq<SourceFile>)
    requires FilesWellFormed(files) && EtlRun(parse, files).Success?
    ensures |EtlRun(parse, files).value.rows| == InputRows(files)
  {
    ConcatRowCount(CleanAll(parse, files).value);
    CleanAllRowCount(parse, files);
  }

  /**
   * Row i of file k is written, cleaned under file k's city label, at
   * offset InputRows(files[..k]) + i: files keep their order and rows keep
   * theirs.
   */
  lemma EtlRowPlacement(parse: Parser, files: seq<SourceFile>, k: nat, i: nat)
    requires FilesWellFormed(files) && EtlRun(parse, files).Success?
    requires k < |files| && i < |files[k].contents.value.rows|
    ensures InputRows(files[..k]) + i < |EtlRun(parse, files).value.rows|
    ensures EtlRun(parse, files).value.rows[InputRows(files[..k]) + i]
      == CleanRow(parse, files[k].contents.value.rows[i], CityLabel(files[k].stem))
  {
    var ts := CleanAll(parse, files).value;
    CleanedFileAt(parse, files, k);
    ConcatRowsAt(ts, k, i);
    RowsOfPrefix(parse, files, k);
  }

  /** The k-th cleaned table is file k cleaned under its own city label. */
  lemma CleanedFileAt(parse: Parser, files: seq<SourceFile>, k: nat)
    requires FilesWellFormed(files) && CleanAll(parse, files).Success? && k < |files|
    ensures Loadable(files[k])
    ensures CleanAll(parse, files).value[k] == CleanTable(parse, files[k].contents.value, CityLabel(files[k].stem))
  {
    var ts := CleanAll(parse, files).value;
    assert CleanFile(parse, files[k]) == Success(ts[k]);
    CleanFileSuccess(parse, files[k]);
  }

  /** What a file that cleans without error is cleaned to. */
  lemma CleanFileSuccess(parse: Parser, f: SourceFile)
    requires f.contents.Some? ==> WellFormed(f.contents.value)
    requires CleanFile(parse, f).Success?
    ensures Loadable(f)
    ensures CleanFile(parse, f).value == CleanTable(parse, f.contents.value, CityLabel(f.stem))
  {
  }

  /** Every written row carries the label of the file it came from. */
  lemma EtlCityTag(parse: Parser, files: seq<SourceFile>, k: nat, i: nat)
    requires FilesWellFormed(files) && EtlRun(parse, files).Success?
    requires k < |files| && i < |files[k].contents.value.rows|
    ensures InputRows(files[..k]) + i < |EtlRun(parse, files).value.rows|
    ensures var row := EtlRun(parse, files).value.rows[InputRows(files[..k]) + i];
      "city" in row && row["city"] == Str(CityLabel(files[k].stem))
  {
    EtlRowPlacement(parse, files, k, i);
    var df := files[k].contents.value;
    assert "price_level" in ColumnSet(df) && df.rows[i].Keys == ColumnSet(df);
  }

  /** The cleaned prefix has as many rows as the corresponding files. */
  lemma {:induction false} RowsOfPrefix(parse: Parser, files: seq<SourceFile>, k: nat)
    requires FilesWellFormed(files) && CleanAll(parse, files).Success? && k <= |files|
    ensures TotalRows(CleanAll(parse, files).value[..k]) == InputRows(files[..k])
    decreases k
  {
    var ts := CleanAll(parse, files).value;
    if k > 0 {
      RowsOfPrefix(parse, files, k - 1);
      CleanedRowCount(parse, files, k - 1);
      assert ts[..k][..k - 1] == ts[..k - 1];
      assert files[..k][..k - 1] == files[..k - 1];
      assert TotalRows(ts[..k]) == TotalRows(ts[..k - 1]) + |ts[k - 1].rows|;
      assert InputRows(files[..k]) == InputRows(files[..k - 1]) + |files[k - 1].contents.value.rows|;
    }
  }

  /** Cleaning file k keeps its row count. */
  lemma CleanedRowCount(parse: Parser, files: seq<SourceFile>, k: nat)
    requires FilesWellFormed(files) && CleanAll(parse, files).Success? && k < |files|
    ensures files[k].contents.Some?
    ensures |CleanAll(parse, files).value[k].rows| == |files[k].contents.value.rows|
  {
    CleanedFileAt(parse, files, k);
  }

  /** Running again on the same files leaves the table as the first run left it. */
  lemma RerunIsIdempotent(parse: Parser, files: seq<SourceFile>, before: Option<Frame>)
    requires FilesWellFormed(files)
    ensures AfterRun(parse, files, AfterRun(parse, files, before)) == AfterRun(parse, files, before)
    ensures EtlRun(parse, files).Success? ==>
      forall other :: AfterRun(parse, files, other) == AfterRun(parse, files, before)
  {
  }

  /** The SQLite database: only the `restaurants` table is modelled (None: not created yet). */
  class Database {
    var restaurants: Option<Frame>

    /** `to_sql('restaurants', if_exists='replace')`: the old table is dropped and `t` written. */
    method ReplaceTable(t: Frame)
      modifies this
      ensures restaurants == Some(t)
    {
      restaurants := Some(t);
    }
  }

  /**
   * run_etl's loop over the files: each file is cleaned under its city label and
   * appended; the first exception ends the loop.
   */
  method CleanFiles(parse: Parser, files: seq<SourceFile>) returns (r: Result<seq<Frame>, EtlError>)
    requires FilesWellFormed(files)
    ensures r == CleanAll(parse, files)
  {
    var all: seq<Frame> := [];
    var k := 0;
    while k < |files|
      invariant 0 <= k <= |files|
      invariant CleanAll(parse, files[..k]) == Success(all)
    {
      var f := files[k];
      CleanAllStep(parse, files, k, all);
      if f.contents.None? {
        FailurePersists(parse, files, k + 1);
        return Failure(Unreadable(f.stem));
      }
      var cleaned := CleanData(parse, f.contents.value, CityLabel(f.stem));
      if cleaned.Failure? {
        FailurePersists(parse, files, k + 1);
        return Failure(cleaned.error);
      }
      all := all + [cleaned.value];
      k := k + 1;
    }
    assert files[..k] == files;
    return Success(all);
  }

  /**
   * run_etl over the files the glob found, in that order.  The result stands
   * for what the run logs: the number of records loaded, or the error.
   */
  method RunEtl(parse: Parser, files: seq<SourceFile>, db: Database) returns (r: Result<nat, EtlError>)
    requires FilesWellFormed(files)
    modifies db
    ensures db.restaurants == AfterRun(parse, files, old(db.restaurants))
    ensures EtlRun(parse, files).Success? ==> r == Success(|EtlRun(parse, files).value.rows|)
    ensures EtlRun(parse, files).Failure? ==> r == Failure(EtlRun(parse, files).error)
  {
    if |files| == 0 {
      return Failure(NoFiles);
    }
    var cleaned := CleanFiles(parse, files);
    if cleaned.Failure? {
      return Failure(cleaned.error);
    }
    var combined := Frame(RelevantCols, ConcatRows(cleaned.value));
    db.ReplaceTable(combined);
    return Success(|combined.rows|);
  }
}
