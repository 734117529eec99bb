/**
 * `transform_all` and its stages. Each stage writes its columns into the
 * frame in place; `Frame` holds the rows and the set of columns present, and
 * each stage method is specified by a function of the rows before it.
 */
module Transform {
  import opened Wrappers
  import opened Keys
  import opened Rows
  import opened Stats
  import opened Rounding
  import opened Clean
  import opened Features

  /** Two tables that agree row by row on the columns of a cleaned frame. */
  predicate KeepsBase(a: seq<Row>, b: seq<Row>) {
    |a| == |b| &&
    forall i :: 0 <= i < |a| ==>
      a[i].date == b[i].date && a[i].symbol == b[i].symbol &&
      a[i].openPrice == b[i].openPrice && a[i].highPrice == b[i].highPrice &&
      a[i].lowPrice == b[i].lowPrice && a[i].closePrice == b[i].closePrice &&
      a[i].volume == b[i].volume
  }

  lemma KeepsBaseFacts(a: seq<Row>, b: seq<Row>)
    requires KeepsBase(a, b)
    ensures SameSymbolsAndCloses(a, b)
    ensures PositiveCloses(a) ==> PositiveCloses(b)
    ensures StrictlySorted(a) ==> StrictlySorted(b)
    ensures forall oil :: JoinOil(a, oil) == JoinOil(b, oil)
  {
  }

  lemma KeepsBaseTransitive(a: seq<Row>, b: seq<Row>, c: seq<Row>)
    requires KeepsBase(a, b) && KeepsBase(b, c)
    ensures KeepsBase(a, c)
  {
  }

  // ---------------------------------------------------------------------
  // The stages, as functions of the rows before them
  // ---------------------------------------------------------------------

  /** `add_company_info`: company name and sector looked up by symbol. */
  function WithCompanyInfo(rows: seq<Row>, companies: map<string, (string, string)>): (out: seq<Row>)
    ensures KeepsBase(rows, out)
  {
    seq(|rows|, i requires 0 <= i < |rows| =>
      rows[i].(companyName := CompanyFor(companies, rows[i].symbol).0,
               sector := CompanyFor(companies, rows[i].symbol).1))
  }

  /**
   * After `add_company_info` every row carries its symbol's (name, sector)
   * when the lookup lists the symbol and ("Unknown", "Unknown") otherwise;
   * the row count and every other column stay as they were.
   */
  lemma CompanyInfoAt(rows: seq<Row>, companies: map<string, (string, string)>, i: nat)
    requires i < |rows|
    ensures var out := WithCompanyInfo(rows, companies);
      |out| == |rows| &&
      (rows[i].symbol in companies ==>
        out[i].companyName == companies[rows[i].symbol].0 && out[i].sector == companies[rows[i].symbol].1) &&
      (rows[i].symbol !in companies ==> out[i].companyName == "Unknown" && out[i].sector == "Unknown") &&
      out[i] == rows[i].(companyName := out[i].companyName, sector := out[i].sector)
  {
  }

  /** `calculate_percent_change`. */
  function WithPctChange(rows: seq<Row>): (out: seq<Row>)
    requires PositiveCloses(rows)
    ensures KeepsBase(rows, out)
  {
    seq(|rows|, i requires 0 <= i < |rows| => rows[i].(pctChange := PctChangeAt(rows, i)))
  }

  /** `calculate_moving_averages`: the 7-row and the 30-row average. */
  function WithMovingAverages(rows: seq<Row>): (out: seq<Row>)
    ensures KeepsBase(rows, out)
  {
    seq(|rows|, i requires 0 <= i < |rows| =>
      rows[i].(ma7 := MovingAverageAt(rows, i, ShortWindow), ma30 := MovingAverageAt(rows, i, LongWindow)))
  }

  /** `calculate_volatility`. */
  function WithVolatility(rows: seq<Row>, sqrt: SqrtFn): (out: seq<Row>)
    ensures KeepsBase(rows, out)
  {
    seq(|rows|, i requires 0 <= i < |rows| => rows[i].(volatility := VolatilityAt(rows, i, sqrt)))
  }

  /** `add_trend_label`: read from the percent-change column as it stands. */
  function WithTrend(rows: seq<Row>): (out: seq<Row>)
    ensures KeepsBase(rows, out)
  {
    seq(|rows|, i requires 0 <= i < |rows| => rows[i].(trend := TrendOf(rows[i].pctChange)))
  }

  /**
   * `merge_oil_price`: with no oil data the column is all missing; otherwise
   * each row takes the price of its date and missing prices are filled
   * forward down the whole table.
   */
  function OilColumn(rows: seq<Row>, oil: seq<OilPoint>): (col: seq<Option<real>>)
    ensures |col| == |rows|
  {
    if |oil| == 0 then seq(|rows|, i => None) else FFill(JoinOil(rows, oil))
  }

  function WithOilPrice(rows: seq<Row>, oil: seq<OilPoint>): (out: seq<Row>)
    ensures KeepsBase(rows, out)
  {
    var col := OilColumn(rows, oil);
    seq(|rows|, i requires 0 <= i < |rows| => rows[i].(oilPrice := col[i]))
  }

  // ---------------------------------------------------------------------
  // Rounding of the numeric columns
  // ---------------------------------------------------------------------

  /** The columns `transform_all` rounds, in its order. */
  const NumericColumns: seq<Column> :=
    [OpenCol, HighCol, LowCol, CloseCol, PctChangeCol, Ma7Col, Ma30Col, VolatilityCol, OilPriceCol]

  /** `df[col] = df[col].round(2)` on one row. */
  function RoundField(r: Row, col: Column): Row {
    match col
    case OpenCol => r.(openPrice := Round2(r.openPrice))
    case HighCol => r.(highPrice := Round2(r.highPrice))
    case LowCol => r.(lowPrice := Round2(r.lowPrice))
    case CloseCol => r.(closePrice := Round2(r.closePrice))
    case PctChangeCol => r.(pctChange := Round2(r.pctChange))
    case Ma7Col => r.(ma7 := Round2(r.ma7))
    case Ma30Col => r.(ma30 := Round2(r.ma30))
    case VolatilityCol => r.(volatility := Round2(r.volatility))
    case OilPriceCol => r.(oilPrice := Round2Opt(r.oilPrice))
    case _ => r
  }

  function RoundColumn(rows: seq<Row>, col: Column): (out: seq<Row>)
    ensures |out| == |rows|
  {
    seq(|rows|, i requires 0 <= i < |rows| => RoundField(rows[i], col))
  }

  /** A row with every numeric field whose column is in `present` rounded to two decimals. */
  function RoundedRow(r: Row, present: set<Column>): Row {
    r.(openPrice := if OpenCol in present then Round2(r.openPrice) else r.openPrice,
       highPrice := if HighCol in present then Round2(r.highPrice) else r.highPrice,
       lowPrice := if LowCol in present then Round2(r.lowPrice) else r.lowPrice,
       closePrice := if CloseCol in present then Round2(r.closePrice) else r.closePrice,
       pctChange := if PctChangeCol in present then Round2(r.pctChange) else r.pctChange,
       ma7 := if Ma7Col in present then Round2(r.ma7) else r.ma7,
       ma30 := if Ma30Col in present then Round2(r.ma30) else r.ma30,
       volatility := if VolatilityCol in present then Round2(r.volatility) else r.volatility,
       oilPrice := if OilPriceCol in present then Round2Opt(r.oilPrice) else r.oilPrice)
  }

  /** Rounding one more column of a partly rounded row. */
  lemma RoundFieldStep(r: Row, present: set<Column>, col: Column)
    requires col in NumericColumns && col !in present
    ensures RoundField(RoundedRow(r, present), col) == RoundedRow(r, present + {col})
  {
  }

  /** Rounding one more column of a partly rounded table. */
  lemma RoundColumnStep(rows: seq<Row>, orig: seq<Row>, present: set<Column>, col: Column)
    requires col in NumericColumns && col !in present && |rows| == |orig|
    requires forall i :: 0 <= i < |rows| ==> rows[i] == RoundedRow(orig[i], present)
    ensures forall i :: 0 <= i < |rows| ==> RoundColumn(rows, col)[i] == RoundedRow(orig[i], present + {col})
  {
    forall i | 0 <= i < |rows| ensures RoundColumn(rows, col)[i] == RoundedRow(orig[i], present + {col}) {
      RoundFieldStep(orig[i], present, col);
    }
  }

  /** Only the numeric columns of the set matter. */
  lemma RoundedRowNumericOnly(r: Row, p: set<Column>, q: set<Column>)
    requires forall col :: col in NumericColumns ==> (col in p <==> col in q)
    ensures RoundedRow(r, p) == RoundedRow(r, q)
  {
    assert OpenCol in NumericColumns && HighCol in NumericColumns && LowCol in NumericColumns;
    assert CloseCol in NumericColumns && PctChangeCol in NumericColumns && Ma7Col in NumericColumns;
    assert Ma30Col in NumericColumns && VolatilityCol in NumericColumns && OilPriceCol in NumericColumns;
  }

  /** Rounding a rounded row changes nothing. */
  lemma RoundedRowIdempotent(r: Row, present: set<Column>)
    ensures RoundedRow(RoundedRow(r, present), present) == RoundedRow(r, present)
  {
    Round2Idempotent(r.openPrice);
    Round2Idempotent(r.highPrice);
    Round2Idempotent(r.lowPrice);
    Round2Idempotent(r.closePrice);
    Round2Idempotent(r.pctChange);
    Round2Idempotent(r.ma7);
    Round2Idempotent(r.ma30);
    Round2Idempotent(r.volatility);
    if r.oilPrice.Some? {
      Round2Idempotent(r.oilPrice.value);
    }
  }

  function Rounded(rows: seq<Row>, present: set<Column>): (out: seq<Row>)
    ensures |out| == |rows|
  {
    seq(|rows|, i requires 0 <= i < |rows| => RoundedRow(rows[i], present))
  }

  /** Rounding leaves the keys, so the order, alone. */
  lemma RoundedKeepsOrder(rows: seq<Row>, present: set<Column>)
    requires StrictlySorted(rows)
    ensures StrictlySorted(Rounded(rows, present))
  {
    var out := Rounded(rows, present);
    forall i, j | 0 <= i < j < |out| ensures KeyLess(out[i], out[j]) {
      assert SameKey(out[i], rows[i]) && SameKey(out[j], rows[j]);
    }
  }

  /**
   * With oil data, the column holds the last price listed for the date of
   * this row or of a row above it, whatever its symbol.
   */
  lemma OilColumnAt(rows: seq<Row>, oil: seq<OilPoint>, i: nat)
    requires i < |rows| && |oil| > 0
    ensures OilColumn(rows, oil)[i] == LastKnown(JoinOil(rows, oil)[..i + 1])
  {
    FFillAt(JoinOil(rows, oil), i);
  }

  /** It is missing only when none of the dates down to this row is listed with a price. */
  lemma OilColumnMissing(rows: seq<Row>, oil: seq<OilPoint>, i: nat)
    requires i < |rows| && |oil| > 0
    ensures OilColumn(rows, oil)[i] == None <==> forall j :: 0 <= j <= i ==> OilOn(oil, rows[j].date) == None
  {
    OilColumnAt(rows, oil, i);
    var upTo := JoinOil(rows, oil)[..i + 1];
    LastKnownNone(upTo);
    assert forall j :: 0 <= j < |upTo| ==> upTo[j] == OilOn(oil, rows[j].date);
  }

  // ---------------------------------------------------------------------
  // The whole transform
  // ---------------------------------------------------------------------

  /** The stages in `transform_all`'s order, applied to cleaned rows. */
  function Stages(c: seq<Row>, oil: seq<OilPoint>, companies: map<string, (string, string)>,
                  sqrt: SqrtFn): (rows: seq<Row>)
    requires PositiveCloses(c)
    ensures KeepsBase(c, rows)
  {
    var r1 := WithCompanyInfo(c, companies);
    KeepsBaseFacts(c, r1);
    var r2 := WithPctChange(r1);
    var r3 := WithMovingAverages(r2);
    var r4 := WithVolatility(r3, sqrt);
    var r5 := WithTrend(r4);
    var r6 := WithOilPrice(r5, oil);
    KeepsBaseTransitive(c, r1, r2);
    KeepsBaseTransitive(c, r2, r3);
    KeepsBaseTransitive(c, r3, r4);
    KeepsBaseTransitive(c, r4, r5);
    KeepsBaseTransitive(c, r5, r6);
    r6
  }

  /** The table before rounding. */
  function Enriched(stock: seq<RawRow>, oil: seq<OilPoint>, companies: map<string, (string, string)>,
                    sqrt: SqrtFn): (rows: seq<Row>)
    ensures KeepsBase(CleanData(stock), rows)
  {
    CleanDataPositive(stock);
    Stages(CleanData(stock), oil, companies, sqrt)
  }

  /** `transform_all`: the enriched table with its numeric columns rounded. */
  function TransformSpec(stock: seq<RawRow>, oil: seq<OilPoint>, companies: map<string, (string, string)>,
                         sqrt: SqrtFn): seq<Row>
  {
    Rounded(Enriched(stock, oil, companies, sqrt), AllColumns)
  }

  /** Row `i` after the stages, in terms of the rows before them. */
  lemma StagesAt(c: seq<Row>, oil: seq<OilPoint>, companies: map<string, (string, string)>,
                 sqrt: SqrtFn, i: nat)
    requires PositiveCloses(c) && i < |c|
    ensures var e := Stages(c, oil, companies, sqrt);
      (e[i].companyName, e[i].sector) == CompanyFor(companies, c[i].symbol) &&
      e[i].pctChange == PctChangeAt(c, i) &&
      e[i].ma7 == MovingAverageAt(c, i, ShortWindow) &&
      e[i].ma30 == MovingAverageAt(c, i, LongWindow) &&
      e[i].volatility == VolatilityAt(c, i, sqrt) &&
      e[i].trend == TrendOf(PctChangeAt(c, i)) &&
      e[i].oilPrice == OilColumn(c, oil)[i]
  {
    var r1 := WithCompanyInfo(c, companies);
    KeepsBaseFacts(c, r1);
    var r2 := WithPctChange(r1);
    KeepsBaseFacts(r1, r2);
    var r3 := WithMovingAverages(r2);
    KeepsBaseFacts(r2, r3);
    var r4 := WithVolatility(r3, sqrt);
    KeepsBaseFacts(r3, r4);
    var r5 := WithTrend(r4);
    KeepsBaseFacts(r4, r5);
    var r6 := WithOilPrice(r5, oil);
    assert r6 == Stages(c, oil, companies, sqrt);
    HistoryDependsOnCloses(c, r1, i);
    HistoryDependsOnCloses(r1, r2, i);
    HistoryDependsOnCloses(r2, r3, i);
    assert r2[i].pctChange == PctChangeAt(c, i);
    assert r3[i].ma7 == MovingAverageAt(c, i, ShortWindow);
    assert r3[i].ma30 == MovingAverageAt(c, i, LongWindow);
    assert r4[i].volatility == VolatilityAt(c, i, sqrt);
    assert r5[i].trend == TrendOf(PctChangeAt(c, i));
  }

  /**
   * Row `i` of the transformed table, column by column, in terms of the
   * cleaned rows: every statistic is computed from unrounded closes of the
   * row's own symbol, and only then rounded.
   */
  lemma TransformRow(stock: seq<RawRow>, oil: seq<OilPoint>, companies: map<string, (string, string)>,
                     sqrt: SqrtFn, i: nat)
    requires i < |CleanData(stock)|
    ensures PositiveCloses(CleanData(stock))
    ensures var c := CleanData(stock);
      var out := TransformSpec(stock, oil, companies, sqrt);
      |out| == |c| &&
      out[i].date == c[i].date && out[i].symbol == c[i].symbol && out[i].volume == c[i].volume &&
      out[i].openPrice == Round2(c[i].openPrice) && out[i].highPrice == Round2(c[i].highPrice) &&
      out[i].lowPrice == Round2(c[i].lowPrice) && out[i].closePrice == Round2(c[i].closePrice) &&
      (out[i].companyName, out[i].sector) == CompanyFor(companies, c[i].symbol) &&
      out[i].pctChange == Round2(PctChangeAt(c, i)) &&
      out[i].ma7 == Round2(MovingAverageAt(c, i, ShortWindow)) &&
      out[i].ma30 == Round2(MovingAverageAt(c, i, LongWindow)) &&
      out[i].volatility == Round2(VolatilityAt(c, i, sqrt)) &&
      out[i].trend == TrendOf(PctChangeAt(c, i)) &&
      out[i].oilPrice == Round2Opt(OilColumn(c, oil)[i])
  {
    CleanDataPositive(stock);
    StagesAt(CleanData(stock), oil, companies, sqrt, i);
    var e := Enriched(stock, oil, companies, sqrt);
    assert TransformSpec(stock, oil, companies, sqrt)[i] == RoundedRow(e[i], AllColumns);
  }

  /** The transformed table keeps the cleaned frame's order: by (symbol, date), each key once. */
  lemma TransformSorted(stock: seq<RawRow>, oil: seq<OilPoint>, companies: map<string, (string, string)>,
                        sqrt: SqrtFn)
    ensures var out := TransformSpec(stock, oil, companies, sqrt);
      StrictlySorted(out) && |out| == |CleanData(stock)| && |out| <= |stock|
  {
    var e := Enriched(stock, oil, companies, sqrt);
    CleanDataSorted(stock);
    KeepsBaseFacts(CleanData(stock), e);
    RoundedKeepsOrder(e, AllColumns);
  }

  /** Inputs without duplicate keys that differ only in order give the same table. */
  lemma TransformOrderInvariant(a: seq<RawRow>, b: seq<RawRow>, oil: seq<OilPoint>,
                                companies: map<string, (string, string)>, sqrt: SqrtFn)
    requires UniqueRawKeys(a) && UniqueRawKeys(b)
    requires forall r :: r in a <==> r in b
    ensures TransformSpec(a, oil, companies, sqrt) == TransformSpec(b, oil, companies, sqrt)
  {
    CleanDataOrderInvariant(a, b);
  }

  /**
   * The first row of each symbol: no change, flat, both averages equal to the
   * (rounded) close, and no volatility.
   */
  lemma TransformFirstRow(stock: seq<RawRow>, oil: seq<OilPoint>, companies: map<string, (string, string)>,
                          sqrt: SqrtFn, i: nat)
    requires i < |CleanData(stock)|
    requires forall j :: 0 <= j < i ==> CleanData(stock)[j].symbol != CleanData(stock)[i].symbol
    ensures var out := TransformSpec(stock, oil, companies, sqrt);
      i < |out| && out[i].pctChange == 0.0 && out[i].trend == Flat &&
      out[i].ma7 == out[i].closePrice && out[i].ma30 == out[i].closePrice && out[i].volatility == 0.0
  {
    var c := CleanData(stock);
    TransformRow(stock, oil, companies, sqrt, i);
    FirstRowFeatures(c, i, sqrt);
    Round2NonNegative(0.0);
  }

  /**
   * Against the previous row of the same symbol, the label says which way the
   * unrounded close moved.
   */
  lemma TransformTrend(stock: seq<RawRow>, oil: seq<OilPoint>, companies: map<string, (string, string)>,
                       sqrt: SqrtFn, j: nat, i: nat)
    requires j < i < |CleanData(stock)|
    requires CleanData(stock)[j].symbol == CleanData(stock)[i].symbol
    requires forall k :: j < k < i ==> CleanData(stock)[k].symbol != CleanData(stock)[i].symbol
    ensures var c := CleanData(stock);
      var out := TransformSpec(stock, oil, companies, sqrt);
      i < |out| &&
      (out[i].trend == Up <==> c[i].closePrice > c[j].closePrice) &&
      (out[i].trend == Down <==> c[i].closePrice < c[j].closePrice) &&
      (out[i].trend == Flat <==> c[i].closePrice == c[j].closePrice)
  {
    TransformRow(stock, oil, companies, sqrt, i);
    NextRowChange(CleanData(stock), j, i);
  }

  /** Volatility and both moving averages are never negative. */
  lemma TransformNonNegative(stock: seq<RawRow>, oil: seq<OilPoint>, companies: map<string, (string, string)>,
                             sqrt: SqrtFn, i: nat)
    requires i < |CleanData(stock)|
    ensures var out := TransformSpec(stock, oil, companies, sqrt);
      i < |out| && out[i].volatility >= 0.0 && out[i].ma7 >= 0.0 && out[i].ma30 >= 0.0 && out[i].closePrice >= 0.0
  {
    var c := CleanData(stock);
    TransformRow(stock, oil, companies, sqrt, i);
    VolatilityNonNegative(c, i, sqrt);
    Round2NonNegative(VolatilityAt(c, i, sqrt));
    MovingAverageInWindow(c, i, ShortWindow);
    MovingAverageInWindow(c, i, LongWindow);
    Round2NonNegative(MovingAverageAt(c, i, ShortWindow));
    Round2NonNegative(MovingAverageAt(c, i, LongWindow));
    Round2NonNegative(c[i].closePrice);
  }

  /**
   * The oil column: all missing without oil data; otherwise the rounded last
   * price listed for the date of this row or of any row above it, of any
   * symbol, and missing only when none of those dates is listed with a price.
   */
  lemma TransformOil(stock: seq<RawRow>, oil: seq<OilPoint>, companies: map<string, (string, string)>,
                     sqrt: SqrtFn, i: nat)
    requires i < |CleanData(stock)|
    ensures var c := CleanData(stock);
      var out := TransformSpec(stock, oil, companies, sqrt);
      i < |out| &&
      (|oil| == 0 ==> out[i].oilPrice == None) &&
      (|oil| > 0 ==> out[i].oilPrice == Round2Opt(LastKnown(JoinOil(c, oil)[..i + 1]))) &&
      (|oil| > 0 ==> (out[i].oilPrice == None <==> forall j :: 0 <= j <= i ==> OilOn(oil, c[j].date) == None))
  {
    TransformRow(stock, oil, companies, sqrt, i);
    if |oil| > 0 {
      OilColumnAt(CleanData(stock), oil, i);
      OilColumnMissing(CleanData(stock), oil, i);
    }
  }

  /** Every rounded column holds a value with at most two decimals. */
  lemma TransformCents(stock: seq<RawRow>, oil: seq<OilPoint>, companies: map<string, (string, string)>,
                       sqrt: SqrtFn, i: nat)
    requires i < |CleanData(stock)|
    ensures var out := TransformSpec(stock, oil, companies, sqrt);
      i < |out| &&
      IsCents(out[i].openPrice) && IsCents(out[i].highPrice) && IsCents(out[i].lowPrice) &&
      IsCents(out[i].closePrice) && IsCents(out[i].pctChange) && IsCents(out[i].ma7) &&
      IsCents(out[i].ma30) && IsCents(out[i].volatility) &&
      (out[i].oilPrice.Some? ==> IsCents(out[i].oilPrice.value))
  {
    var e := Enriched(stock, oil, companies, sqrt);
    var r := e[i];
    Round2Spec(r.openPrice);
    Round2Spec(r.highPrice);
    Round2Spec(r.lowPrice);
    Round2Spec(r.closePrice);
    Round2Spec(r.pctChange);
    Round2Spec(r.ma7);
    Round2Spec(r.ma30);
    Round2Spec(r.volatility);
    if r.oilPrice.Some? {
      Round2Spec(r.oilPrice.value);
    }
  }

  // ---------------------------------------------------------------------
  // The frame the stages update in place
  // ---------------------------------------------------------------------

  class Frame {
    var rows: seq<Row>
    var columns: set<Column>

    /** `clean_data` on the downloaded rows. */
    constructor Cleaned(raw: seq<RawRow>)
      ensures rows == CleanData(raw) && columns == BaseColumns
    {
      rows := CleanData(raw);
      columns := BaseColumns;
    }

    /** `add_company_info`: the name column, then the sector column. */
    method AddCompanyInfo(companies: map<string, (string, string)>)
      requires SymbolCol in columns
      modifies this
      ensures rows == WithCompanyInfo(old(rows), companies)
      ensures columns == old(columns) + {CompanyNameCol, SectorCol}
    {
      var named := rows;
      named := seq(|named|, i requires 0 <= i < |named| =>
        named[i].(companyName := CompanyFor(companies, named[i].symbol).0));
      rows := seq(|named|, i requires 0 <= i < |named| =>
        named[i].(sector := CompanyFor(companies, named[i].symbol).1));
      columns := columns + {CompanyNameCol, SectorCol};
    }

    /** `calculate_percent_change`. */
    method CalculatePercentChange()
      requires {SymbolCol, CloseCol} <= columns
      requires PositiveCloses(rows)
      modifies this
      ensures rows == WithPctChange(old(rows))
      ensures columns == old(columns) + {PctChangeCol}
    {
      rows := WithPctChange(rows);
      columns := columns + {PctChangeCol};
    }

    /** `calculate_moving_averages`: the 7-row column, then the 30-row column. */
    method CalculateMovingAverages()
      requires {SymbolCol, CloseCol} <= columns
      modifies this
      ensures rows == WithMovingAverages(old(rows))
      ensures columns == old(columns) + {Ma7Col, Ma30Col}
    {
      var before := rows;
      var short := seq(|before|, i requires 0 <= i < |before| =>
        before[i].(ma7 := MovingAverageAt(before, i, ShortWindow)));
      assert SameSymbolsAndCloses(before, short);
      forall i | 0 <= i < |short| ensures MovingAverageAt(short, i, LongWindow) == MovingAverageAt(before, i, LongWindow) {
        HistoryDependsOnCloses(before, short, i);
      }
      rows := seq(|short|, i requires 0 <= i < |short| => short[i].(ma30 := MovingAverageAt(short, i, LongWindow)));
      columns := columns + {Ma7Col, Ma30Col};
    }

    /** `calculate_volatility`. */
    method CalculateVolatility(sqrt: SqrtFn)
      requires {SymbolCol, CloseCol} <= columns
      modifies this
      ensures rows == WithVolatility(old(rows), sqrt)
      ensures columns == old(columns) + {VolatilityCol}
    {
      rows := WithVolatility(rows, sqrt);
      columns := columns + {VolatilityCol};
    }

    /** `add_trend_label`: fails without a percent-change column. */
    method AddTrendLabel()
      requires PctChangeCol in columns
      modifies this
      ensures rows == WithTrend(old(rows))
      ensures columns == old(columns) + {TrendCol}
    {
      rows := WithTrend(rows);
      columns := columns + {TrendCol};
    }

    /** `merge_oil_price`: the left join on the date, then the forward fill. */
    method MergeOilPrice(oil: seq<OilPoint>)
      requires DateCol in columns
      modifies this
      ensures rows == WithOilPrice(old(rows), oil)
      ensures columns == old(columns) + {OilPriceCol}
    {
      columns := columns + {OilPriceCol};
      var before := rows;
      if |oil| == 0 {
        rows := seq(|before|, i requires 0 <= i < |before| => before[i].(oilPrice := None));
        return;
      }
      var merged := seq(|before|, i requires 0 <= i < |before| => before[i].(oilPrice := OilOn(oil, before[i].date)));
      var joined := seq(|merged|, i requires 0 <= i < |merged| => merged[i].oilPrice);
      assert joined == JoinOil(before, oil);
      var filled := FFill(joined);
      rows := seq(|merged|, i requires 0 <= i < |merged| => merged[i].(oilPrice := filled[i]));
    }

    /** The rounding loop of `transform_all`: each numeric column the frame holds, in turn. */
    method RoundNumeric()
      modifies this
      ensures rows == Rounded(old(rows), columns)
      ensures columns == old(columns)
    {
      var c := 0;
      ghost var done: set<Column> := {};
      while c < |NumericColumns|
        invariant 0 <= c <= |NumericColumns|
        invariant columns == old(columns)
        invariant forall col :: col in done <==> col in NumericColumns[..c]
        invariant |rows| == |old(rows)|
        invariant forall i :: 0 <= i < |rows| ==> rows[i] == RoundedRow(old(rows)[i], columns * done)
      {
        var col := NumericColumns[c];
        if col in columns {
          assert columns * (done + {col}) == columns * done + {col};
          RoundColumnStep(rows, old(rows), columns * done, col);
          rows := RoundColumn(rows, col);
        } else {
          assert columns * (done + {col}) == columns * done;
        }
        done := done + {col};
        c := c + 1;
      }
      forall i | 0 <= i < |rows| ensures rows[i] == RoundedRow(old(rows)[i], columns) {
        RoundedRowNumericOnly(old(rows)[i], columns * done, columns);
      }
    }
  }

  /** `transform_all`: clean, then the stages in order, then the rounding loop. */
  method TransformAll(stock: seq<RawRow>, oil: seq<OilPoint>, companies: map<string, (string, string)>,
                      sqrt: SqrtFn) returns (df: Frame)
    ensures fresh(df)
    ensures df.columns == AllColumns
    ensures df.rows == TransformSpec(stock, oil, companies, sqrt)
  {
    var c := CleanData(stock);
    df := new Frame.Cleaned(stock);
    CleanDataPositive(stock);
    df.AddCompanyInfo(companies);
    ghost var r1 := WithCompanyInfo(c, companies);
    KeepsBaseFacts(c, r1);
    df.CalculatePercentChange();
    ghost var r2 := WithPctChange(r1);
    df.CalculateMovingAverages();
    ghost var r3 := WithMovingAverages(r2);
    df.CalculateVolatility(sqrt);
    ghost var r4 := WithVolatility(r3, sqrt);
    df.AddTrendLabel();
    ghost var r5 := WithTrend(r4);
    df.MergeOilPrice(oil);
    assert df.rows == WithOilPrice(r5, oil) == Enriched(stock, oil, companies, sqrt);
    assert df.columns == AllColumns;
    df.RoundNumeric();
  }
}
