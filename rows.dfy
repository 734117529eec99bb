/**
 * The rows of the price table as they move through the transform: the raw
 * downloaded row, and the frame row that gains one column per stage.
 */
module Rows {
  import opened Wrappers
  import opened Keys

  /**
   * One downloaded OHLCV row. A close or volume that pandas holds as NaN is
   * `None`; duplicates of (symbol, date) may occur.
   */
  datatype RawRow = RawRow(
    date: Date,
    symbol: string,
    openPrice: real,
    highPrice: real,
    lowPrice: real,
    closePrice: Option<real>,
    volume: Option<int>)

  /** The trend label: 'up', 'down' or 'flat'. */
  datatype Trend = Up | Down | Flat

  /** The columns a frame may hold. */
  datatype Column =
    | DateCol | SymbolCol | OpenCol | HighCol | LowCol | CloseCol | VolumeCol
    | CompanyNameCol | SectorCol
    | PctChangeCol | Ma7Col | Ma30Col | VolatilityCol | TrendCol
    | OilPriceCol

  /** The columns of a cleaned frame, before any stage has added its own. */
  const BaseColumns: set<Column> :=
    {DateCol, SymbolCol, OpenCol, HighCol, LowCol, CloseCol, VolumeCol}

  /** Every column of the transformed table. */
  const AllColumns: set<Column> :=
    BaseColumns + {CompanyNameCol, SectorCol} + {PctChangeCol} + {Ma7Col, Ma30Col} + {VolatilityCol} + {TrendCol}
    + {OilPriceCol}

  /**
   * One row of the frame. A field whose column the frame does not hold yet
   * carries a placeholder that no stage reads; the frame's column set says
   * which fields are real.
   */
  datatype Row = Row(
    date: Date,
    symbol: string,
    openPrice: real,
    highPrice: real,
    lowPrice: real,
    closePrice: real,
    volume: int,
    companyName: string,
    sector: string,
    pctChange: real,
    ma7: real,
    ma30: real,
    volatility: real,
    trend: Trend,
    oilPrice: Option<real>)

  /** One point of the oil price series; its price may be NaN. */
  datatype OilPoint = OilPoint(date: Date, oilPrice: Option<real>)

  /** Sort order of `sort_values(['symbol', 'date'])`, strict. */
  predicate KeyLess(a: Row, b: Row) {
    StrLess(a.symbol, b.symbol) || (a.symbol == b.symbol && DateLess(a.date, b.date))
  }

  predicate SameKey(a: Row, b: Row) {
    a.symbol == b.symbol && a.date == b.date
  }

  /** Ascending by (symbol, date), each key at most once. */
  predicate StrictlySorted(rows: seq<Row>) {
    forall i, j :: 0 <= i < j < |rows| ==> KeyLess(rows[i], rows[j])
  }

  /** Ascending by (symbol, date), equal keys allowed. */
  predicate Sorted(rows: seq<Row>) {
    forall i, j :: 0 <= i < j < |rows| ==> KeyLess(rows[i], rows[j]) || SameKey(rows[i], rows[j])
  }

  /** Every close is positive: what survives cleaning. */
  predicate PositiveCloses(rows: seq<Row>) {
    forall i :: 0 <= i < |rows| ==> rows[i].closePrice > 0.0
  }

  /** No two rows share a (symbol, date) key. */
  predicate UniqueKeys(rows: seq<Row>) {
    forall i, j :: 0 <= i < j < |rows| ==> !SameKey(rows[i], rows[j])
  }

  lemma KeyLessIrreflexive(a: Row)
    ensures !KeyLess(a, a)
  {
    StrLessIrreflexive(a.symbol);
  }

  lemma KeyLessTransitive(a: Row, b: Row, c: Row)
    requires KeyLess(a, b) && KeyLess(b, c)
    ensures KeyLess(a, c)
  {
    if StrLess(a.symbol, b.symbol) && StrLess(b.symbol, c.symbol) {
      StrLessTransitive(a.symbol, b.symbol, c.symbol);
    }
  }

  /** Two rows with different keys are ordered one way or the other. */
  lemma KeyLessTotal(a: Row, b: Row)
    requires !SameKey(a, b)
    ensures KeyLess(a, b) || KeyLess(b, a)
  {
    if a.symbol != b.symbol {
      StrLessTotal(a.symbol, b.symbol);
    }
  }

  /** KeyLess never holds both ways and never between rows of one key. */
  lemma KeyLessAsymmetric(a: Row, b: Row)
    requires KeyLess(a, b)
    ensures !KeyLess(b, a) && !SameKey(a, b)
  {
    if KeyLess(b, a) {
      KeyLessTransitive(a, b, a);
      KeyLessIrreflexive(a);
    }
    if SameKey(a, b) {
      KeyLessIrreflexive(a);
    }
  }

  /** Strict sortedness is exactly sortedness plus unique keys. */
  lemma StrictlySortedIff(rows: seq<Row>)
    ensures StrictlySorted(rows) <==> Sorted(rows) && UniqueKeys(rows)
  {
    if StrictlySorted(rows) {
      forall i, j | 0 <= i < j < |rows| ensures !SameKey(rows[i], rows[j]) {
        KeyLessAsymmetric(rows[i], rows[j]);
      }
    }
  }
}
