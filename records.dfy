/**
 * The records `load_stock_data` uploads: `to_dict('records')` of the
 * transformed frame, with each date replaced by its text form.
 */
module Records {
  import opened Wrappers
  import opened Keys
  import opened Rows

  /** One field value of a record. */
  datatype Cell = Num(x: real) | Int(n: int) | Text(s: string) | Day(d: Date) | Null

  /** A record: the value of each column it holds. */
  type Record = map<Column, Cell>

  function TrendText(t: Trend): string {
    match t
    case Up => "up"
    case Down => "down"
    case Flat => "flat"
  }

  /** The value a row holds in one column; a missing oil price is null. */
  function CellOf(r: Row, col: Column): Cell {
    match col
    case DateCol => Day(r.date)
    case SymbolCol => Text(r.symbol)
    case OpenCol => Num(r.openPrice)
    case HighCol => Num(r.highPrice)
    case LowCol => Num(r.lowPrice)
    case CloseCol => Num(r.closePrice)
    case VolumeCol => Int(r.volume)
    case CompanyNameCol => Text(r.companyName)
    case SectorCol => Text(r.sector)
    case PctChangeCol => Num(r.pctChange)
    case Ma7Col => Num(r.ma7)
    case Ma30Col => Num(r.ma30)
    case VolatilityCol => Num(r.volatility)
    case TrendCol => Text(TrendText(r.trend))
    case OilPriceCol => if r.oilPrice.Some? then Num(r.oilPrice.value) else Null
  }

  /** `df.to_dict('records')`: one record per row, holding the frame's columns. */
  function ToRecords(rows: seq<Row>, columns: set<Column>): (records: seq<Record>)
    ensures |records| == |rows|
    ensures forall i :: 0 <= i < |rows| ==> records[i].Keys == columns
    ensures forall i, c :: 0 <= i < |rows| && c in columns ==> records[i][c] == CellOf(rows[i], c)
  {
    seq(|rows|, i requires 0 <= i < |rows| => map c | c in columns :: CellOf(rows[i], c))
  }

  /** `str()` of the date field: a date becomes its ISO text. */
  function StrCell(c: Cell): (t: Cell)
    ensures c.Day? ==> t == Text(DateText(c.d))
    ensures !c.Day? ==> t == c
  {
    if c.Day? then Text(DateText(c.d)) else c
  }

  /** A record with its date field, if it has one, in text form; no other field changes. */
  function WithDateText(rec: Record): (out: Record)
    ensures out.Keys == rec.Keys
    ensures forall c :: c in rec && c != DateCol ==> out[c] == rec[c]
    ensures DateCol in rec ==> out[DateCol] == StrCell(rec[DateCol])
  {
    if DateCol in rec then rec[DateCol := StrCell(rec[DateCol])] else rec
  }

  /** The text form keeps the date: it parses back to the date it came from. */
  lemma DateTextKeepsDate(rec: Record)
    requires DateCol in rec && rec[DateCol].Day?
    ensures WithDateText(rec)[DateCol].Text?
    ensures ParseDateText(WithDateText(rec)[DateCol].s) == Some(rec[DateCol].d)
  {
    DateTextRoundTrip(rec[DateCol].d);
  }

  /** The loop that replaces each record's date by `str(date)`. */
  method StringifyDates(records: seq<Record>) returns (out: seq<Record>)
    ensures |out| == |records|
    ensures forall i :: 0 <= i < |records| ==> out[i] == WithDateText(records[i])
  {
    out := records;
    var k := 0;
    while k < |out|
      invariant 0 <= k <= |out| == |records|
      invariant forall i :: 0 <= i < k ==> out[i] == WithDateText(records[i])
      invariant forall i :: k <= i < |out| ==> out[i] == records[i]
    {
      var record := out[k];
      if DateCol in record {
        record := record[DateCol := StrCell(record[DateCol])];
      }
      out := out[k := record];
      k := k + 1;
    }
  }

  /** What the loader uploads for a frame; nothing for an empty frame. */
  function Prepared(rows: seq<Row>, columns: set<Column>): (records: seq<Record>)
    ensures |records| == if |rows| == 0 || columns == {} then 0 else |rows|
  {
    if |rows| == 0 || columns == {} then []
    else
      var recs := ToRecords(rows, columns);
      seq(|recs|, i requires 0 <= i < |recs| => WithDateText(recs[i]))
  }

  /**
   * An uploaded record holds every column of the frame, the row's value in
   * each, except that the date is in text form.
   */
  lemma PreparedRecord(rows: seq<Row>, columns: set<Column>, i: nat)
    requires i < |rows| && columns != {}
    ensures var rec := Prepared(rows, columns)[i];
      rec.Keys == columns &&
      (forall c :: c in columns && c != DateCol ==> rec[c] == CellOf(rows[i], c)) &&
      (DateCol in columns ==> rec[DateCol] == Text(DateText(rows[i].date)))
  {
  }
}
