/**
 * `clean_data`: drop (symbol, date) duplicates keeping the last, drop rows
 * whose close is missing or not positive, fill a missing volume with 0, and
 * sort by (symbol, date).
 */
module Clean {
  import opened Wrappers
  import opened Keys
  import opened Rows

  type RowKey = (string, Date)

  function RawKey(r: RawRow): RowKey {
    (r.symbol, r.date)
  }

  function KeysOf(s: seq<RawRow>): set<RowKey> {
    set r | r in s :: RawKey(r)
  }

  /** No two raw rows share a (symbol, date) key. */
  predicate UniqueRawKeys(s: seq<RawRow>) {
    forall i, j :: 0 <= i < j < |s| ==> RawKey(s[i]) != RawKey(s[j])
  }

  lemma KeysOfCons(s: seq<RawRow>)
    requires s != []
    ensures KeysOf(s) == {RawKey(s[0])} + KeysOf(s[1..])
  {
    assert forall r :: r in s <==> r == s[0] || r in s[1..];
  }

  /** The last row of `s` whose key is `k`: the one `keep='last'` retains. */
  function LastWithKey(s: seq<RawRow>, k: RowKey): RawRow
    requires k in KeysOf(s)
  {
    KeysOfCons(s);
    if RawKey(s[0]) == k && k !in KeysOf(s[1..]) then s[0] else LastWithKey(s[1..], k)
  }

  lemma {:induction false} LastWithKeyIsLast(s: seq<RawRow>, k: RowKey)
    requires k in KeysOf(s)
    ensures exists i :: 0 <= i < |s| && s[i] == LastWithKey(s, k) && RawKey(s[i]) == k &&
                        forall j :: i < j < |s| ==> RawKey(s[j]) != k
  {
    KeysOfCons(s);
    if RawKey(s[0]) == k && k !in KeysOf(s[1..]) {
      assert forall j :: 0 < j < |s| ==> s[j] in s[1..];
    } else {
      LastWithKeyIsLast(s[1..], k);
      var i :| 0 <= i < |s[1..]| && s[1..][i] == LastWithKey(s[1..], k) && RawKey(s[1..][i]) == k &&
               forall j :: i < j < |s[1..]| ==> RawKey(s[1..][j]) != k;
      assert s[i + 1] == s[1..][i];
      forall j | i + 1 < j < |s| ensures RawKey(s[j]) != k {
        assert s[j] == s[1..][j - 1];
      }
    }
  }

  /** With unique keys, the last row with a key is the only one. */
  lemma {:induction false} LastWithKeyOfUnique(s: seq<RawRow>, r: RawRow)
    requires UniqueRawKeys(s) && r in s
    ensures RawKey(r) in KeysOf(s) && LastWithKey(s, RawKey(r)) == r
  {
    KeysOfCons(s);
    if s[0] != r {
      assert r in s[1..];
      LastWithKeyOfUnique(s[1..], r);
    }
  }

  // ---------------------------------------------------------------------
  // drop_duplicates(subset=['date', 'symbol'], keep='last')
  // ---------------------------------------------------------------------

  /** A row survives when no later row carries its key; survivors keep their order. */
  function DropDuplicatesKeepLast(s: seq<RawRow>): (r: seq<RawRow>)
    ensures |r| <= |s|
  {
    if s == [] then []
    else if RawKey(s[0]) in KeysOf(s[1..]) then DropDuplicatesKeepLast(s[1..])
    else [s[0]] + DropDuplicatesKeepLast(s[1..])
  }

  /**
   * After deduplication every key of the input is still present, exactly
   * once, and carried by the last input row with that key.
   */
  lemma {:induction false} DropDuplicatesSpec(s: seq<RawRow>)
    ensures KeysOf(DropDuplicatesKeepLast(s)) == KeysOf(s)
    ensures UniqueRawKeys(DropDuplicatesKeepLast(s))
    ensures forall r :: r in DropDuplicatesKeepLast(s) ==> RawKey(r) in KeysOf(s) && r == LastWithKey(s, RawKey(r))
  {
    if s != [] {
      var t := DropDuplicatesKeepLast(s[1..]);
      DropDuplicatesSpec(s[1..]);
      KeysOfCons(s);
      if RawKey(s[0]) !in KeysOf(s[1..]) {
        var d := [s[0]] + t;
        assert d == DropDuplicatesKeepLast(s);
        KeysOfCons(d);
        assert d[1..] == t;
        forall i, j | 0 <= i < j < |d| ensures RawKey(d[i]) != RawKey(d[j]) {
          if i == 0 {
            assert d[j] in t;
          } else {
            assert d[i] == t[i - 1] && d[j] == t[j - 1];
          }
        }
      }
    }
  }

  // ---------------------------------------------------------------------
  // df[df['close_price'] > 0]
  // ---------------------------------------------------------------------

  /** A close that is present and positive (a NaN close compares false). */
  predicate ValidClose(r: RawRow) {
    r.closePrice.Some? && r.closePrice.value > 0.0
  }

  function FilterValidClose(s: seq<RawRow>): (r: seq<RawRow>)
    ensures |r| <= |s|
  {
    if s == [] then []
    else (if ValidClose(s[0]) then [s[0]] else []) + FilterValidClose(s[1..])
  }

  /** The filter keeps exactly the rows with a valid close, keeping keys unique. */
  lemma {:induction false} FilterValidCloseSpec(s: seq<RawRow>)
    ensures forall r :: r in FilterValidClose(s) <==> r in s && ValidClose(r)
    ensures UniqueRawKeys(s) ==> UniqueRawKeys(FilterValidClose(s))
  {
    if s != [] {
      var t := FilterValidClose(s[1..]);
      FilterValidCloseSpec(s[1..]);
      assert forall r :: r in s <==> r == s[0] || r in s[1..];
      if UniqueRawKeys(s) {
        assert UniqueRawKeys(s[1..]) by {
          forall i, j | 0 <= i < j < |s[1..]| ensures RawKey(s[1..][i]) != RawKey(s[1..][j]) {
            assert s[1..][i] == s[i + 1] && s[1..][j] == s[j + 1];
          }
        }
        if ValidClose(s[0]) {
          var f := [s[0]] + t;
          forall i, j | 0 <= i < j < |f| ensures RawKey(f[i]) != RawKey(f[j]) {
            if i == 0 {
              assert f[j] in s[1..];
              var m :| 0 <= m < |s[1..]| && s[1..][m] == f[j];
              assert s[m + 1] == f[j];
            } else {
              assert f[i] == t[i - 1] && f[j] == t[j - 1];
            }
          }
        } else {
          assert FilterValidClose(s) == t;
        }
      }
    }
  }

  // ---------------------------------------------------------------------
  // df['volume'].fillna(0), as the row enters the frame
  // ---------------------------------------------------------------------

  /**
   * A row with a valid close as the frame holds it: the volume filled with 0
   * where missing; the columns later stages add carry placeholders.
   */
  function ToFrameRow(r: RawRow): Row
    requires r.closePrice.Some?
  {
    Row(r.date, r.symbol, r.openPrice, r.highPrice, r.lowPrice, r.closePrice.value, r.volume.GetOr(0),
        "", "", 0.0, 0.0, 0.0, 0.0, Flat, None)
  }

  function FillVolume(s: seq<RawRow>): (r: seq<Row>)
    requires forall i :: 0 <= i < |s| ==> ValidClose(s[i])
    ensures |r| == |s|
  {
    seq(|s|, i requires 0 <= i < |s| && ValidClose(s[i]) => ToFrameRow(s[i]))
  }

  // ---------------------------------------------------------------------
  // sort_values(['symbol', 'date'])
  // ---------------------------------------------------------------------

  function Insert(x: Row, s: seq<Row>): (r: seq<Row>)
    ensures |r| == |s| + 1
  {
    if s == [] then [x]
    else if KeyLess(s[0], x) then [s[0]] + Insert(x, s[1..])
    else [x] + s
  }

  function SortByKey(s: seq<Row>): (r: seq<Row>)
    ensures |r| == |s|
  {
    if s == [] then [] else Insert(s[0], SortByKey(s[1..]))
  }

  predicate KeyLeq(a: Row, b: Row) {
    KeyLess(a, b) || SameKey(a, b)
  }

  lemma KeyLeqTransitive(a: Row, b: Row, c: Row)
    requires KeyLeq(a, b) && KeyLeq(b, c)
    ensures KeyLeq(a, c)
  {
    if KeyLess(a, b) && KeyLess(b, c) {
      KeyLessTransitive(a, b, c);
    }
  }

  lemma {:induction false} InsertElements(x: Row, s: seq<Row>)
    ensures multiset(Insert(x, s)) == multiset(s) + multiset{x}
    ensures forall y :: y in Insert(x, s) <==> y == x || y in s
  {
    if s != [] {
      InsertElements(x, s[1..]);
      assert s == [s[0]] + s[1..];
    }
  }

  lemma SortedTail(s: seq<Row>)
    requires s != [] && Sorted(s)
    ensures Sorted(s[1..])
  {
    forall i, j | 0 <= i < j < |s[1..]| ensures KeyLeq(s[1..][i], s[1..][j]) {
      assert s[1..][i] == s[i + 1] && s[1..][j] == s[j + 1];
    }
  }

  /** A row at or below every row of a sorted sequence can go in front of it. */
  lemma SortedCons(x: Row, s: seq<Row>)
    requires Sorted(s)
    requires forall y :: y in s ==> KeyLeq(x, y)
    ensures Sorted([x] + s)
  {
    var r := [x] + s;
    forall i, j | 0 <= i < j < |r| ensures KeyLeq(r[i], r[j]) {
      assert r[j] == s[j - 1];
      if i > 0 {
        assert r[i] == s[i - 1];
      } else {
        assert r[j] in s;
      }
    }
  }

  lemma UniqueTail(s: seq<Row>)
    requires s != [] && UniqueKeys(s)
    ensures UniqueKeys(s[1..])
  {
    forall i, j | 0 <= i < j < |s[1..]| ensures !SameKey(s[1..][i], s[1..][j]) {
      assert s[1..][i] == s[i + 1] && s[1..][j] == s[j + 1];
    }
  }

  /** A row whose key no row of `s` has keeps the keys unique in front of it. */
  lemma UniqueCons(x: Row, s: seq<Row>)
    requires UniqueKeys(s)
    requires forall y :: y in s ==> !SameKey(x, y)
    ensures UniqueKeys([x] + s)
  {
    var r := [x] + s;
    forall i, j | 0 <= i < j < |r| ensures !SameKey(r[i], r[j]) {
      assert r[j] == s[j - 1];
      if i > 0 {
        assert r[i] == s[i - 1];
      } else {
        assert r[j] in s;
      }
    }
  }

  lemma {:induction false} InsertSorted(x: Row, s: seq<Row>)
    requires Sorted(s)
    ensures Sorted(Insert(x, s))
  {
    if s != [] {
      if KeyLess(s[0], x) {
        SortedTail(s);
        InsertSorted(x, s[1..]);
        InsertElements(x, s[1..]);
        forall y | y in Insert(x, s[1..]) ensures KeyLeq(s[0], y) {
          if y != x {
            var m :| 0 <= m < |s[1..]| && s[1..][m] == y;
            assert s[m + 1] == y;
          }
        }
        SortedCons(s[0], Insert(x, s[1..]));
      } else {
        assert KeyLeq(x, s[0]) by {
          if !SameKey(x, s[0]) {
            KeyLessTotal(x, s[0]);
          }
        }
        forall y | y in s ensures KeyLeq(x, y) {
          var m :| 0 <= m < |s| && s[m] == y;
          if m > 0 {
            KeyLeqTransitive(x, s[0], y);
          }
        }
        SortedCons(x, s);
      }
    }
  }

  lemma {:induction false} InsertUnique(x: Row, s: seq<Row>)
    requires UniqueKeys(s)
    requires forall y :: y in s ==> !SameKey(x, y)
    ensures UniqueKeys(Insert(x, s))
  {
    if s != [] {
      if KeyLess(s[0], x) {
        UniqueTail(s);
        InsertUnique(x, s[1..]);
        InsertElements(x, s[1..]);
        KeyLessAsymmetric(s[0], x);
        forall y | y in Insert(x, s[1..]) ensures !SameKey(s[0], y) {
          if y != x {
            var m :| 0 <= m < |s[1..]| && s[1..][m] == y;
            assert s[m + 1] == y;
          }
        }
        UniqueCons(s[0], Insert(x, s[1..]));
      } else {
        UniqueCons(x, s);
      }
    }
  }

  lemma {:induction false} SortByKeyElements(s: seq<Row>)
    ensures multiset(SortByKey(s)) == multiset(s)
    ensures forall y :: y in SortByKey(s) <==> y in s
  {
    if s != [] {
      SortByKeyElements(s[1..]);
      InsertElements(s[0], SortByKey(s[1..]));
      assert s == [s[0]] + s[1..];
    }
  }

  lemma {:induction false} SortByKeySorted(s: seq<Row>)
    ensures Sorted(SortByKey(s))
  {
    if s != [] {
      SortByKeySorted(s[1..]);
      InsertSorted(s[0], SortByKey(s[1..]));
    }
  }

  lemma {:induction false} SortByKeyUnique(s: seq<Row>)
    requires UniqueKeys(s)
    ensures UniqueKeys(SortByKey(s))
  {
    if s != [] {
      var t := SortByKey(s[1..]);
      UniqueTail(s);
      SortByKeyUnique(s[1..]);
      SortByKeyElements(s[1..]);
      forall y | y in t ensures !SameKey(s[0], y) {
        var m :| 0 <= m < |s[1..]| && s[1..][m] == y;
        assert s[m + 1] == y;
      }
      InsertUnique(s[0], t);
    }
  }

  /** Sorting gives a sorted permutation, and keeps keys unique when they were. */
  lemma SortByKeySpec(s: seq<Row>)
    ensures multiset(SortByKey(s)) == multiset(s)
    ensures Sorted(SortByKey(s))
    ensures UniqueKeys(s) ==> UniqueKeys(SortByKey(s))
  {
    SortByKeyElements(s);
    SortByKeySorted(s);
    if UniqueKeys(s) {
      SortByKeyUnique(s);
    }
  }

  // ---------------------------------------------------------------------
  // clean_data
  // ---------------------------------------------------------------------

  /** Rows that survive deduplication and the close filter, in input order. */
  function Kept(raw: seq<RawRow>): (kept: seq<RawRow>)
    ensures forall i :: 0 <= i < |kept| ==> ValidClose(kept[i])
  {
    FilterValidCloseSpec(DropDuplicatesKeepLast(raw));
    var kept := FilterValidClose(DropDuplicatesKeepLast(raw));
    assert forall i :: 0 <= i < |kept| ==> kept[i] in kept;
    kept
  }

  /** The cleaned frame's rows. */
  function CleanData(raw: seq<RawRow>): (rows: seq<Row>)
    ensures |rows| <= |raw|
  {
    SortByKey(FillVolume(Kept(raw)))
  }

  lemma CleanDataElements(raw: seq<RawRow>, y: Row)
    ensures y in CleanData(raw) <==> exists m :: 0 <= m < |Kept(raw)| && y == ToFrameRow(Kept(raw)[m])
  {
    var f := FillVolume(Kept(raw));
    SortByKeySpec(f);
    assert y in CleanData(raw) <==> y in multiset(f);
    if y in f {
      var m :| 0 <= m < |f| && f[m] == y;
      assert y == ToFrameRow(Kept(raw)[m]);
    }
    if exists m :: 0 <= m < |Kept(raw)| && y == ToFrameRow(Kept(raw)[m]) {
      var m :| 0 <= m < |Kept(raw)| && y == ToFrameRow(Kept(raw)[m]);
      assert f[m] == y;
    }
  }

  /**
   * Every cleaned row is the last input row with its (symbol, date) key,
   * whose close was present and positive, with the volume filled with 0.
   */
  lemma CleanDataSound(raw: seq<RawRow>, r: Row)
    requires r in CleanData(raw)
    ensures (r.symbol, r.date) in KeysOf(raw)
    ensures ValidClose(LastWithKey(raw, (r.symbol, r.date)))
    ensures r == ToFrameRow(LastWithKey(raw, (r.symbol, r.date)))
  {
    CleanDataElements(raw, r);
    var m :| 0 <= m < |Kept(raw)| && r == ToFrameRow(Kept(raw)[m]);
    var d := DropDuplicatesKeepLast(raw);
    DropDuplicatesSpec(raw);
    FilterValidCloseSpec(d);
    var x := Kept(raw)[m];
    assert x in FilterValidClose(d);
    assert x in d;
  }

  /**
   * Deduplication happens before the close filter: a key whose last row has
   * a valid close is in the cleaned frame even when earlier rows with that
   * key do not.
   */
  lemma CleanDataComplete(raw: seq<RawRow>, k: RowKey)
    requires k in KeysOf(raw) && ValidClose(LastWithKey(raw, k))
    ensures ToFrameRow(LastWithKey(raw, k)) in CleanData(raw)
  {
    var d := DropDuplicatesKeepLast(raw);
    DropDuplicatesSpec(raw);
    FilterValidCloseSpec(d);
    var x :| x in d && RawKey(x) == k;
    assert x == LastWithKey(raw, k);
    assert x in Kept(raw);
    var m :| 0 <= m < |Kept(raw)| && Kept(raw)[m] == x;
    CleanDataElements(raw, ToFrameRow(x));
  }

  function KeysOfRows(rows: seq<Row>): set<RowKey> {
    set r | r in rows :: (r.symbol, r.date)
  }

  /**
   * A key is in the cleaned frame exactly when its last input row has a
   * present, positive close; an earlier row with a good close does not
   * rescue it.
   */
  lemma CleanDataKeys(raw: seq<RawRow>, k: RowKey)
    ensures k in KeysOfRows(CleanData(raw)) <==> k in KeysOf(raw) && ValidClose(LastWithKey(raw, k))
  {
    if k in KeysOfRows(CleanData(raw)) {
      var r :| r in CleanData(raw) && (r.symbol, r.date) == k;
      CleanDataSound(raw, r);
    }
    if k in KeysOf(raw) && ValidClose(LastWithKey(raw, k)) {
      CleanDataComplete(raw, k);
      var r := ToFrameRow(LastWithKey(raw, k));
      LastWithKeyIsLast(raw, k);
      assert (r.symbol, r.date) == k;
    }
  }

  /** Every cleaned close is positive. */
  lemma CleanDataPositive(raw: seq<RawRow>)
    ensures PositiveCloses(CleanData(raw))
  {
    forall i | 0 <= i < |CleanData(raw)| ensures CleanData(raw)[i].closePrice > 0.0 {
      CleanDataSound(raw, CleanData(raw)[i]);
    }
  }

  /** The cleaned frame is sorted by (symbol, date) with each key once. */
  lemma CleanDataSorted(raw: seq<RawRow>)
    ensures StrictlySorted(CleanData(raw))
  {
    var d := DropDuplicatesKeepLast(raw);
    DropDuplicatesSpec(raw);
    FilterValidCloseSpec(d);
    var kept := Kept(raw);
    var f := FillVolume(kept);
    assert UniqueKeys(f) by {
      forall i, j | 0 <= i < j < |f| ensures !SameKey(f[i], f[j]) {
        assert RawKey(kept[i]) != RawKey(kept[j]);
      }
    }
    SortByKeySpec(f);
    StrictlySortedIff(CleanData(raw));
  }

  /** Two strictly sorted sequences with the same elements are equal. */
  lemma {:induction false} StrictlySortedUnique(a: seq<Row>, b: seq<Row>)
    requires StrictlySorted(a) && StrictlySorted(b)
    requires forall y :: y in a <==> y in b
    ensures a == b
  {
    if b != [] {
      assert b[0] in b;
    }
    if a != [] {
      assert a[0] in b;
      assert b != [];
      if a[0] != b[0] {
        assert b[0] in b;
        var p :| 0 <= p < |a| && a[p] == b[0];
        var q :| 0 <= q < |b| && b[q] == a[0];
        KeyLessAsymmetric(a[0], b[0]);
      }
      forall y ensures y in a[1..] <==> y in b[1..] {
        if y in a[1..] {
          var p :| 0 <= p < |a[1..]| && a[1..][p] == y;
          assert a[p + 1] == y;
          KeyLessIrreflexive(a[0]);
          assert y in b;
          var q :| 0 <= q < |b| && b[q] == y;
        }
        if y in b[1..] {
          var q :| 0 <= q < |b[1..]| && b[1..][q] == y;
          assert b[q + 1] == y;
          KeyLessIrreflexive(b[0]);
          assert y in a;
          var p :| 0 <= p < |a| && a[p] == y;
        }
      }
      assert StrictlySorted(a[1..]) by {
        forall i, j | 0 <= i < j < |a[1..]| ensures KeyLess(a[1..][i], a[1..][j]) {
          assert a[1..][i] == a[i + 1] && a[1..][j] == a[j + 1];
        }
      }
      assert StrictlySorted(b[1..]) by {
        forall i, j | 0 <= i < j < |b[1..]| ensures KeyLess(b[1..][i], b[1..][j]) {
          assert b[1..][i] == b[i + 1] && b[1..][j] == b[j + 1];
        }
      }
      StrictlySortedUnique(a[1..], b[1..]);
      assert a == [a[0]] + a[1..] && b == [b[0]] + b[1..];
    }
  }

  /**
   * The cleaned frame depends only on which keys occur and on the last row
   * of each: input order matters only through which row comes last.
   */
  lemma CleanDataDependsOnLast(a: seq<RawRow>, b: seq<RawRow>)
    requires KeysOf(a) == KeysOf(b)
    requires forall k :: k in KeysOf(a) ==> LastWithKey(a, k) == LastWithKey(b, k)
    ensures CleanData(a) == CleanData(b)
  {
    forall y ensures y in CleanData(a) <==> y in CleanData(b) {
      if y in CleanData(a) {
        CleanDataSound(a, y);
        CleanDataComplete(b, (y.symbol, y.date));
      }
      if y in CleanData(b) {
        CleanDataSound(b, y);
        CleanDataComplete(a, (y.symbol, y.date));
      }
    }
    CleanDataSorted(a);
    CleanDataSorted(b);
    StrictlySortedUnique(CleanData(a), CleanData(b));
  }

  /** Shuffling an input without duplicate keys does not change the cleaned frame. */
  lemma CleanDataOrderInvariant(a: seq<RawRow>, b: seq<RawRow>)
    requires UniqueRawKeys(a) && UniqueRawKeys(b)
    requires forall r :: r in a <==> r in b
    ensures CleanData(a) == CleanData(b)
  {
    assert KeysOf(a) == KeysOf(b);
    forall k | k in KeysOf(a) ensures LastWithKey(a, k) == LastWithKey(b, k) {
      var x :| x in a && RawKey(x) == k;
      LastWithKeyOfUnique(a, x);
      LastWithKeyOfUnique(b, x);
    }
    CleanDataDependsOnLast(a, b);
  }
}
