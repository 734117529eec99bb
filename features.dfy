/**
 * The per-row values the transform stages compute: each one is a function
 * of the closes that row's symbol has seen so far in table order (what
 * `groupby('symbol')` hands each group), of the company lookup, or of the
 * oil series joined on the date.
 */
module Features {
  import opened Wrappers
  import opened Keys
  import opened Rows
  import opened Stats

  /** Window lengths of the two moving averages and of the volatility. */
  const ShortWindow: nat := 7
  const LongWindow: nat := 30
  const VolatilityWindow: nat := 30

  /** The label company info carries for a symbol the lookup does not know. */
  const Unknown: string := "Unknown"

  // ---------------------------------------------------------------------
  // A symbol's closes
  // ---------------------------------------------------------------------

  /** The closes of the rows whose symbol is `sym`, in table order. */
  function SymbolCloses(rows: seq<Row>, sym: string): (r: seq<real>)
    ensures |r| <= |rows|
  {
    if rows == [] then []
    else
      var last := rows[|rows| - 1];
      SymbolCloses(rows[..|rows| - 1], sym) + (if last.symbol == sym then [last.closePrice] else [])
  }

  /** The closes row `i`'s group has seen, up to and including row `i`. */
  function History(rows: seq<Row>, i: nat): (h: seq<real>)
    requires i < |rows|
    ensures |h| >= 1 && h[|h| - 1] == rows[i].closePrice
  {
    assert rows[..i + 1][..i] == rows[..i];
    SymbolCloses(rows[..i + 1], rows[i].symbol)
  }

  lemma {:induction false} SymbolClosesAppend(a: seq<Row>, b: seq<Row>, sym: string)
    ensures SymbolCloses(a + b, sym) == SymbolCloses(a, sym) + SymbolCloses(b, sym)
  {
    if b != [] {
      var b' := b[..|b| - 1];
      assert (a + b)[..|a + b| - 1] == a + b';
      SymbolClosesAppend(a, b', sym);
    } else {
      assert a + b == a;
    }
  }

  lemma {:induction false} SymbolClosesAbsent(rows: seq<Row>, sym: string)
    requires forall j :: 0 <= j < |rows| ==> rows[j].symbol != sym
    ensures SymbolCloses(rows, sym) == []
  {
    if rows != [] {
      SymbolClosesAbsent(rows[..|rows| - 1], sym);
    }
  }

  lemma {:induction false} SymbolClosesPositive(rows: seq<Row>, sym: string)
    requires PositiveCloses(rows)
    ensures forall k :: 0 <= k < |SymbolCloses(rows, sym)| ==> SymbolCloses(rows, sym)[k] > 0.0
  {
    if rows != [] {
      SymbolClosesPositive(rows[..|rows| - 1], sym);
    }
  }

  /** Two tables that agree on every row's symbol and close. */
  predicate SameSymbolsAndCloses(a: seq<Row>, b: seq<Row>) {
    |a| == |b| && forall i :: 0 <= i < |a| ==> a[i].symbol == b[i].symbol && a[i].closePrice == b[i].closePrice
  }

  /** A group's closes depend on nothing but the rows' symbols and closes. */
  lemma {:induction false} SymbolClosesDependOnCloses(a: seq<Row>, b: seq<Row>, sym: string)
    requires SameSymbolsAndCloses(a, b)
    ensures SymbolCloses(a, sym) == SymbolCloses(b, sym)
  {
    if a != [] {
      SymbolClosesDependOnCloses(a[..|a| - 1], b[..|b| - 1], sym);
    }
  }

  lemma HistoryDependsOnCloses(a: seq<Row>, b: seq<Row>, i: nat)
    requires SameSymbolsAndCloses(a, b) && i < |a|
    ensures History(a, i) == History(b, i)
  {
    SymbolClosesDependOnCloses(a[..i + 1], b[..i + 1], a[i].symbol);
  }

  lemma HistoryPositive(rows: seq<Row>, i: nat)
    requires PositiveCloses(rows) && i < |rows|
    ensures forall k :: 0 <= k < |History(rows, i)| ==> History(rows, i)[k] > 0.0
  {
    SymbolClosesPositive(rows[..i + 1], rows[i].symbol);
  }

  /** A row with no earlier row of its symbol starts its group's history. */
  lemma HistoryOfFirst(rows: seq<Row>, i: nat)
    requires i < |rows|
    requires forall j :: 0 <= j < i ==> rows[j].symbol != rows[i].symbol
    ensures History(rows, i) == [rows[i].closePrice]
  {
    assert rows[..i + 1] == rows[..i] + [rows[i]];
    SymbolClosesAppend(rows[..i], [rows[i]], rows[i].symbol);
    SymbolClosesAbsent(rows[..i], rows[i].symbol);
    assert [rows[i]][..0] == [];
  }

  /**
   * Rows of other symbols between two rows of one symbol do not enter its
   * history: row `i`'s history is row `j`'s plus its own close when `j` is
   * the previous row of the same symbol.
   */
  lemma HistoryOfNext(rows: seq<Row>, j: nat, i: nat)
    requires j < i < |rows| && rows[j].symbol == rows[i].symbol
    requires forall k :: j < k < i ==> rows[k].symbol != rows[i].symbol
    ensures History(rows, i) == History(rows, j) + [rows[i].closePrice]
  {
    var sym := rows[i].symbol;
    var mid := rows[j + 1..i];
    assert rows[..i + 1] == rows[..j + 1] + mid + [rows[i]];
    SymbolClosesAppend(rows[..j + 1] + mid, [rows[i]], sym);
    SymbolClosesAppend(rows[..j + 1], mid, sym);
    SymbolClosesAbsent(mid, sym);
    assert [rows[i]][..0] == [];
  }

  // ---------------------------------------------------------------------
  // The per-row statistics
  // ---------------------------------------------------------------------

  /** `pct_change() * 100` within the row's symbol, 0 for its first row. */
  function PctChangeAt(rows: seq<Row>, i: nat): real
    requires i < |rows| && PositiveCloses(rows)
  {
    HistoryPositive(rows, i);
    PctChange(History(rows, i))
  }

  /** `rolling(window=w, min_periods=1).mean()` within the row's symbol. */
  function MovingAverageAt(rows: seq<Row>, i: nat, w: nat): real
    requires i < |rows| && w >= 1
  {
    MovingAverage(History(rows, i), w)
  }

  /**
   * The square root the volatility takes of a variance. Only two facts about
   * it are used: the root of 0 is 0, and no root of a non-negative number is
   * negative.
   */
  type SqrtFn = f: real -> real | f(0.0) == 0.0 && forall x :: 0.0 <= x ==> 0.0 <= f(x)
    witness (x: real) => if x < 0.0 then 0.0 else x

  /** `rolling(window=30, min_periods=1).std()` within the row's symbol, NaN filled with 0. */
  function VolatilityAt(rows: seq<Row>, i: nat, sqrt: SqrtFn): real
    requires i < |rows|
  {
    sqrt(SampleVariance(Window(History(rows, i), VolatilityWindow)))
  }

  /** The trend label of a percentage change. */
  function TrendOf(pct: real): Trend {
    if pct > 0.0 then Up else if pct < 0.0 then Down else Flat
  }

  /** The first row of a symbol: no change, flat, both averages the close itself, no volatility. */
  lemma FirstRowFeatures(rows: seq<Row>, i: nat, sqrt: SqrtFn)
    requires i < |rows| && PositiveCloses(rows)
    requires forall j :: 0 <= j < i ==> rows[j].symbol != rows[i].symbol
    ensures PctChangeAt(rows, i) == 0.0
    ensures TrendOf(PctChangeAt(rows, i)) == Flat
    ensures MovingAverageAt(rows, i, ShortWindow) == rows[i].closePrice
    ensures MovingAverageAt(rows, i, LongWindow) == rows[i].closePrice
    ensures VolatilityAt(rows, i, sqrt) == 0.0
  {
    HistoryOfFirst(rows, i);
    var h := [rows[i].closePrice];
    assert Window(h, ShortWindow) == h && Window(h, LongWindow) == h;
    MeanConstant(h, rows[i].closePrice);
  }

  /**
   * Against the previous row of its symbol, a row's change is the relative
   * move of the close, and its label says which way the close went.
   */
  lemma NextRowChange(rows: seq<Row>, j: nat, i: nat)
    requires j < i < |rows| && PositiveCloses(rows) && rows[j].symbol == rows[i].symbol
    requires forall k :: j < k < i ==> rows[k].symbol != rows[i].symbol
    ensures PctChangeAt(rows, i) == (rows[i].closePrice - rows[j].closePrice) / rows[j].closePrice * 100.0
    ensures TrendOf(PctChangeAt(rows, i)) == Up <==> rows[i].closePrice > rows[j].closePrice
    ensures TrendOf(PctChangeAt(rows, i)) == Down <==> rows[i].closePrice < rows[j].closePrice
    ensures TrendOf(PctChangeAt(rows, i)) == Flat <==> rows[i].closePrice == rows[j].closePrice
  {
    HistoryOfNext(rows, j, i);
    var h := History(rows, i);
    assert h[|h| - 2] == rows[j].closePrice;
    PctChangeSign(h);
  }

  /** Volatility is never negative. */
  lemma VolatilityNonNegative(rows: seq<Row>, i: nat, sqrt: SqrtFn)
    requires i < |rows|
    ensures VolatilityAt(rows, i, sqrt) >= 0.0
  {
    VarianceNonNegative(Window(History(rows, i), VolatilityWindow));
  }

  /**
   * A moving average lies between the smallest and the largest close of its
   * window; with positive closes it is positive.
   */
  lemma MovingAverageInWindow(rows: seq<Row>, i: nat, w: nat)
    requires i < |rows| && w >= 1
    ensures var win := Window(History(rows, i), w);
      SeqMin(win) <= MovingAverageAt(rows, i, w) <= SeqMax(win)
    ensures PositiveCloses(rows) ==> MovingAverageAt(rows, i, w) > 0.0
  {
    var h := History(rows, i);
    var win := Window(h, w);
    MeanBetweenMinMax(win);
    if PositiveCloses(rows) {
      HistoryPositive(rows, i);
      assert forall k :: 0 <= k < |win| ==> win[k] == h[|h| - |win| + k];
      MeanPositive(win);
    }
  }

  // ---------------------------------------------------------------------
  // Company info
  // ---------------------------------------------------------------------

  /** The (company name, sector) of a symbol, ("Unknown", "Unknown") when unlisted. */
  function CompanyFor(companies: map<string, (string, string)>, sym: string): (info: (string, string))
    ensures sym in companies ==> info == companies[sym]
    ensures sym !in companies ==> info == (Unknown, Unknown)
  {
    if sym in companies then companies[sym] else (Unknown, Unknown)
  }

  // ---------------------------------------------------------------------
  // Oil price: a left join on the date, then a forward fill
  // ---------------------------------------------------------------------

  /** The oil price listed for `d`: the first point on that date, `None` when there is none. */
  function OilOn(oil: seq<OilPoint>, d: Date): (p: Option<real>)
    ensures (forall j :: 0 <= j < |oil| ==> oil[j].date != d) ==> p == None
  {
    if oil == [] then None
    else if oil[0].date == d then oil[0].oilPrice
    else OilOn(oil[1..], d)
  }

  lemma {:induction false} OilOnFound(oil: seq<OilPoint>, d: Date)
    requires OilOn(oil, d).Some?
    ensures exists j :: 0 <= j < |oil| && oil[j].date == d && oil[j].oilPrice == OilOn(oil, d) &&
                        forall k :: 0 <= k < j ==> oil[k].date != d
  {
    if oil[0].date != d {
      OilOnFound(oil[1..], d);
      var j :| 0 <= j < |oil[1..]| && oil[1..][j].date == d && oil[1..][j].oilPrice == OilOn(oil[1..], d) &&
               forall k :: 0 <= k < j ==> oil[1..][k].date != d;
      assert oil[j + 1] == oil[1..][j];
      forall k | 0 <= k < j + 1 ensures oil[k].date != d {
        if k > 0 {
          assert oil[k] == oil[1..][k - 1];
        }
      }
    }
  }

  /** The oil column right after the join: one lookup per row. */
  function JoinOil(rows: seq<Row>, oil: seq<OilPoint>): (col: seq<Option<real>>)
    ensures |col| == |rows|
  {
    seq(|rows|, i requires 0 <= i < |rows| => OilOn(oil, rows[i].date))
  }

  /** The last known value of `xs`, `None` when there is none. */
  function LastKnown(xs: seq<Option<real>>): Option<real> {
    if xs == [] then None
    else if xs[|xs| - 1].Some? then xs[|xs| - 1]
    else LastKnown(xs[..|xs| - 1])
  }

  /** `ffill()`: one pass that carries the previous filled value into each gap. */
  function FFill(xs: seq<Option<real>>): (r: seq<Option<real>>)
    ensures |r| == |xs|
  {
    if xs == [] then []
    else
      var prev := FFill(xs[..|xs| - 1]);
      var x := xs[|xs| - 1];
      prev + [if x.Some? then x else if prev == [] then None else prev[|prev| - 1]]
  }

  /** Each filled value is the last value known at or above that position. */
  lemma {:induction false} FFillAt(xs: seq<Option<real>>, i: nat)
    requires i < |xs|
    ensures FFill(xs)[i] == LastKnown(xs[..i + 1])
  {
    var p := xs[..|xs| - 1];
    if i < |p| {
      FFillAt(p, i);
      assert p[..i + 1] == xs[..i + 1];
    } else {
      assert xs[..i + 1] == xs;
      if p != [] {
        FFillAt(p, |p| - 1);
        assert p[..|p|] == p;
      }
    }
  }

  /** Nothing is known exactly when every value is missing. */
  lemma {:induction false} LastKnownNone(xs: seq<Option<real>>)
    ensures LastKnown(xs) == None <==> forall j :: 0 <= j < |xs| ==> xs[j] == None
  {
    if xs != [] && xs[|xs| - 1] == None {
      LastKnownNone(xs[..|xs| - 1]);
    }
  }

  /** A known value is the value at some position with only gaps after it. */
  lemma {:induction false} LastKnownSome(xs: seq<Option<real>>)
    requires LastKnown(xs).Some?
    ensures exists j :: 0 <= j < |xs| && xs[j] == LastKnown(xs) && forall k :: j < k < |xs| ==> xs[k] == None
  {
    if xs[|xs| - 1] == None {
      var p := xs[..|xs| - 1];
      LastKnownSome(p);
      var j :| 0 <= j < |p| && p[j] == LastKnown(p) && forall k :: j < k < |p| ==> p[k] == None;
      assert xs[j] == p[j];
    }
  }

  /** A forward fill keeps every value that was present. */
  lemma FFillKeepsKnown(xs: seq<Option<real>>, i: nat)
    requires i < |xs| && xs[i].Some?
    ensures FFill(xs)[i] == xs[i]
  {
    FFillAt(xs, i);
  }

  /** Filling twice fills nothing more. */
  lemma {:induction false} FFillIdempotent(xs: seq<Option<real>>)
    ensures FFill(FFill(xs)) == FFill(xs)
  {
    if xs != [] {
      var p := xs[..|xs| - 1];
      FFillIdempotent(p);
      var f := FFill(xs);
      assert f[..|f| - 1] == FFill(p);
    }
  }
}
