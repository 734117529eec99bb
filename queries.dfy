/**
 * The two readers of `load.py` that hold logic of their own: the companies
 * lookup built from the companies table, and the choice of top gainers and
 * losers among one day's stored rows.
 */
module Queries {
  import opened Wrappers
  import opened Rows
  import opened Records

  /** What a select query gives back: its rows, or an error. */
  datatype Response<T> = Data(rows: seq<T>) | QueryFailed

  // ---------------------------------------------------------------------
  // get_companies_from_db
  // ---------------------------------------------------------------------

  /** One row of the companies table: column name to value. */
  type CompanyRow = map<string, string>

  predicate HasCompanyFields(c: CompanyRow) {
    "symbol" in c && "name" in c && "sector" in c
  }

  /**
   * The lookup the loop builds from `rows`, later rows overwriting earlier
   * ones with the same symbol; `None` when some row lacks a field, which
   * raises.
   */
  function CompanyDict(rows: seq<CompanyRow>): Option<map<string, (string, string)>> {
    if rows == [] then Some(map[])
    else
      var c := rows[|rows| - 1];
      match CompanyDict(rows[..|rows| - 1])
      case None => None
      case Some(m) =>
        if HasCompanyFields(c) then Some(m[c["symbol"] := (c["name"], c["sector"])]) else None
  }

  /** `get_companies_from_db`: the lookup, or an empty one when anything raises. */
  function CompaniesOf(response: Response<CompanyRow>): map<string, (string, string)> {
    match response
    case QueryFailed => map[]
    case Data(rows) => CompanyDict(rows).GetOr(map[])
  }

  /** A missing field anywhere fails the whole lookup. */
  lemma {:induction false} CompanyDictNone(rows: seq<CompanyRow>)
    ensures CompanyDict(rows) == None <==> exists j :: 0 <= j < |rows| && !HasCompanyFields(rows[j])
  {
    if rows != [] {
      var p := rows[..|rows| - 1];
      CompanyDictNone(p);
      assert forall j :: 0 <= j < |p| ==> p[j] == rows[j];
    }
  }

  /** A failed query, or a row without one of the three fields, gives the empty lookup. */
  lemma CompaniesOfOnError(response: Response<CompanyRow>)
    requires response.QueryFailed? || exists j :: 0 <= j < |response.rows| && !HasCompanyFields(response.rows[j])
    ensures CompaniesOf(response) == map[]
  {
    if response.Data? {
      CompanyDictNone(response.rows);
    }
  }

  function SymbolOf(c: CompanyRow): string
    requires HasCompanyFields(c)
  {
    c["symbol"]
  }

  function EntryOf(c: CompanyRow): (string, string)
    requires HasCompanyFields(c)
  {
    (c["name"], c["sector"])
  }

  /** A lookup exists only when every row has its fields; its symbols are those of the rows. */
  lemma {:induction false} CompanyDictKeys(rows: seq<CompanyRow>)
    requires CompanyDict(rows).Some?
    ensures forall j :: 0 <= j < |rows| ==> HasCompanyFields(rows[j])
    ensures CompanyDict(rows).value.Keys == set j | 0 <= j < |rows| && HasCompanyFields(rows[j]) :: SymbolOf(rows[j])
  {
    if rows != [] {
      var p := rows[..|rows| - 1];
      CompanyDictKeys(p);
      assert forall j :: 0 <= j < |p| ==> p[j] == rows[j];
      var last := rows[|rows| - 1];
      assert (set j | 0 <= j < |rows| && HasCompanyFields(rows[j]) :: SymbolOf(rows[j]))
          == (set j | 0 <= j < |p| && HasCompanyFields(p[j]) :: SymbolOf(p[j])) + {SymbolOf(last)};
    }
  }

  /** A symbol maps to the name and sector of the last row that carries it. */
  lemma {:induction false} CompanyDictLastWins(rows: seq<CompanyRow>, j: nat)
    requires CompanyDict(rows).Some? && j < |rows|
    requires HasCompanyFields(rows[j])
    requires forall k :: j < k < |rows| && HasCompanyFields(rows[k]) ==> SymbolOf(rows[k]) != SymbolOf(rows[j])
    ensures SymbolOf(rows[j]) in CompanyDict(rows).value
    ensures CompanyDict(rows).value[SymbolOf(rows[j])] == EntryOf(rows[j])
  {
    var p := rows[..|rows| - 1];
    if j < |p| {
      assert p[j] == rows[j];
      forall k | j < k < |p| && HasCompanyFields(p[k]) ensures SymbolOf(p[k]) != SymbolOf(p[j]) {
        assert p[k] == rows[k];
      }
      CompanyDictLastWins(p, j);
    }
  }

  /** The loop of `get_companies_from_db` over the query's rows. */
  method GetCompaniesFromDb(response: Response<CompanyRow>) returns (companies: map<string, (string, string)>)
    ensures companies == CompaniesOf(response)
  {
    if response.QueryFailed? {
      return map[];
    }
    var rows := response.rows;
    companies := map[];
    var k := 0;
    while k < |rows|
      invariant 0 <= k <= |rows|
      invariant CompanyDict(rows[..k]) == Some(companies)
    {
      var company := rows[k];
      assert rows[..k + 1][..k] == rows[..k];
      if !HasCompanyFields(company) {
        CompanyDictNone(rows);
        return map[];
      }
      companies := companies[company["symbol"] := (company["name"], company["sector"])];
      k := k + 1;
    }
    assert rows[..k] == rows;
  }

  // ---------------------------------------------------------------------
  // get_top_gainers_losers: the selection
  // ---------------------------------------------------------------------

  /**
   * A record's percent change: a float, or a whole number read back as an
   * integer; a null, missing or non-numeric one is `None`.
   */
  function PctOf(rec: Record): Option<real> {
    if PctChangeCol !in rec then None
    else
      match rec[PctChangeCol]
      case Num(x) => Some(x)
      case Int(n) => Some(n as real)
      case _ => None
  }

  /** Descending order on percent changes, missing ones last. */
  predicate PctAtLeast(a: Option<real>, b: Option<real>) {
    b.None? || (a.Some? && a.value >= b.value)
  }

  lemma PctAtLeastTransitive(a: Option<real>, b: Option<real>, c: Option<real>)
    requires PctAtLeast(a, b) && PctAtLeast(b, c)
    ensures PctAtLeast(a, c)
  {
  }

  predicate SortedDesc(s: seq<Record>) {
    forall i, j :: 0 <= i < j < |s| ==> PctAtLeast(PctOf(s[i]), PctOf(s[j]))
  }

  /** `a` sorts strictly before `b`: larger, or present where `b` is missing. */
  predicate PctBeats(a: Option<real>, b: Option<real>) {
    a.Some? && (b.None? || a.value > b.value)
  }

  /** Places `x` before the first row it is not strictly beaten by, so ties keep `x` first. */
  function InsertDesc(x: Record, s: seq<Record>): (r: seq<Record>)
    ensures |r| == |s| + 1
  {
    if s == [] then [x]
    else if PctBeats(PctOf(s[0]), PctOf(x)) then [s[0]] + InsertDesc(x, s[1..])
    else [x] + s
  }

  /** `sort_values('pct_change', ascending=False)`: descending, missing last, ties in input order. */
  function SortByPctDesc(s: seq<Record>): (r: seq<Record>)
    ensures |r| == |s|
  {
    if s == [] then [] else InsertDesc(s[0], SortByPctDesc(s[1..]))
  }

  lemma {:induction false} InsertDescElements(x: Record, s: seq<Record>)
    ensures multiset(InsertDesc(x, s)) == multiset(s) + multiset{x}
  {
    if s != [] {
      InsertDescElements(x, s[1..]);
      assert s == [s[0]] + s[1..];
    }
  }

  lemma TailSortedDesc(s: seq<Record>)
    requires s != [] && SortedDesc(s)
    ensures SortedDesc(s[1..])
  {
    forall i, j | 0 <= i < j < |s[1..]| ensures PctAtLeast(PctOf(s[1..][i]), PctOf(s[1..][j])) {
      assert s[1..][i] == s[i + 1] && s[1..][j] == s[j + 1];
    }
  }

  /** A first row that is at least every later row keeps a sorted sequence sorted. */
  lemma ConsSortedDesc(x: Record, s: seq<Record>)
    requires SortedDesc(s)
    requires forall y :: y in s ==> PctAtLeast(PctOf(x), PctOf(y))
    ensures SortedDesc([x] + s)
  {
    var r := [x] + s;
    forall i, j | 0 <= i < j < |r| ensures PctAtLeast(PctOf(r[i]), PctOf(r[j])) {
      assert r[j] == s[j - 1];
      if i > 0 {
        assert r[i] == s[i - 1];
      } else {
        assert r[j] in s;
      }
    }
  }

  lemma {:induction false} InsertDescSorted(x: Record, s: seq<Record>)
    requires SortedDesc(s)
    ensures SortedDesc(InsertDesc(x, s))
  {
    if s != [] {
      if PctBeats(PctOf(s[0]), PctOf(x)) {
        TailSortedDesc(s);
        InsertDescSorted(x, s[1..]);
        InsertDescElements(x, s[1..]);
        var t := InsertDesc(x, s[1..]);
        forall y | y in t ensures PctAtLeast(PctOf(s[0]), PctOf(y)) {
          assert y in multiset(s[1..]) + multiset{x};
          if y != x {
            var m :| 0 <= m < |s[1..]| && s[1..][m] == y;
            assert s[m + 1] == y;
          }
        }
        ConsSortedDesc(s[0], t);
      } else {
        forall y | y in s ensures PctAtLeast(PctOf(x), PctOf(y)) {
          var m :| 0 <= m < |s| && s[m] == y;
          if m > 0 {
            PctAtLeastTransitive(PctOf(x), PctOf(s[0]), PctOf(y));
          }
        }
        ConsSortedDesc(x, s);
      }
    }
  }

  /** The sort gives a permutation of the day's rows in descending order of percent change. */
  lemma {:induction false} SortByPctDescSpec(s: seq<Record>)
    ensures multiset(SortByPctDesc(s)) == multiset(s)
    ensures SortedDesc(SortByPctDesc(s))
  {
    if s != [] {
      SortByPctDescSpec(s[1..]);
      InsertDescElements(s[0], SortByPctDesc(s[1..]));
      InsertDescSorted(s[0], SortByPctDesc(s[1..]));
      assert s == [s[0]] + s[1..];
    }
  }

  /** The rows of `s` whose percent change is `p`, in their order in `s`. */
  function WithPct(s: seq<Record>, p: Option<real>): (r: seq<Record>)
    ensures |r| <= |s|
  {
    if s == [] then []
    else (if PctOf(s[0]) == p then [s[0]] else []) + WithPct(s[1..], p)
  }

  lemma WithPctCons(y: Record, t: seq<Record>, p: Option<real>)
    ensures WithPct([y] + t, p) == (if PctOf(y) == p then [y] else []) + WithPct(t, p)
  {
    assert ([y] + t)[0] == y && ([y] + t)[1..] == t;
  }

  lemma SwapApart(a: seq<Record>, b: seq<Record>, w: seq<Record>)
    requires a == [] || b == []
    ensures a + (b + w) == b + (a + w)
  {
  }

  lemma {:induction false} InsertDescWithPct(x: Record, s: seq<Record>, p: Option<real>)
    ensures WithPct(InsertDesc(x, s), p) == (if PctOf(x) == p then [x] else []) + WithPct(s, p)
  {
    var mine := if PctOf(x) == p then [x] else [];
    if s != [] && PctBeats(PctOf(s[0]), PctOf(x)) {
      var y, t := s[0], s[1..];
      var head := if PctOf(y) == p then [y] else [];
      var rest := InsertDesc(x, t);
      assert InsertDesc(x, s) == [y] + rest;
      assert s == [y] + t;
      InsertDescWithPct(x, t, p);
      WithPctCons(y, rest, p);
      WithPctCons(y, t, p);
      // a strict beat means the two values differ, so at most one of them is p
      SwapApart(head, mine, WithPct(t, p));
    } else {
      WithPctCons(x, s, p);
    }
  }

  /** The sort is stable: rows with equal percent change keep their input order. */
  lemma {:induction false} SortByPctDescStable(s: seq<Record>, p: Option<real>)
    ensures WithPct(SortByPctDesc(s), p) == WithPct(s, p)
  {
    if s != [] {
      SortByPctDescStable(s[1..], p);
      InsertDescWithPct(s[0], SortByPctDesc(s[1..]), p);
    }
  }

  /** Two rows with the same percent change stay in input order, so the first is the top gainer. */
  lemma TiesKeepInputOrder(a: Record, b: Record)
    requires PctOf(a) == PctOf(b)
    ensures SortByPctDesc([a, b]) == [a, b]
    ensures GainersLosers(Data([a, b]), 1) == ([a], [b])
  {
    assert [a, b][1..] == [b];
    assert SortByPctDesc([b]) == [b];
    HeadTaken([a, b], 1);
    TailTaken([a, b], 1);
  }

  /** `head(n)`: the first n rows; a negative n drops the last |n| rows. */
  function Head(s: seq<Record>, n: int): (r: seq<Record>)
    ensures |r| <= |s|
  {
    if n >= 0 then s[..if n < |s| then n else |s|]
    else s[..if |s| + n > 0 then |s| + n else 0]
  }

  /** `tail(n)`: the last n rows; 0 gives none, a negative n drops the first |n| rows. */
  function Tail(s: seq<Record>, n: int): (r: seq<Record>)
    ensures |r| <= |s|
  {
    if n == 0 then []
    else if n > 0 then s[|s| - (if n < |s| then n else |s|)..]
    else s[if -n < |s| then -n else |s|..]
  }

  /**
   * The selection of `get_top_gainers_losers` on the day's rows: two empty
   * results for an empty day or a failed query, otherwise the first and the
   * last `limit` rows of the descending sort.
   */
  function GainersLosers(response: Response<Record>, limit: int): (seq<Record>, seq<Record>) {
    match response
    case QueryFailed => ([], [])
    case Data(rows) =>
      if rows == [] then ([], [])
      else
        var sorted := SortByPctDesc(rows);
        (Head(sorted, limit), Tail(sorted, limit))
  }

  /** The number of rows `head` and `tail` take for a non-negative limit. */
  function Taken(n: nat, limit: nat): nat {
    if limit < n then limit else n
  }

  /**
   * For a non-negative limit the gainers are the first rows of the sorted
   * day and the losers its last rows, as many as the limit allows.
   */
  lemma GainersLosersSlices(rows: seq<Record>, limit: nat)
    requires rows != []
    ensures GainersLosers(Data(rows), limit).0 == SortByPctDesc(rows)[..Taken(|rows|, limit)]
    ensures GainersLosers(Data(rows), limit).1 == SortByPctDesc(rows)[|rows| - Taken(|rows|, limit)..]
  {
    var sorted := SortByPctDesc(rows);
    assert GainersLosers(Data(rows), limit) == (Head(sorted, limit), Tail(sorted, limit));
    HeadTaken(sorted, limit);
    TailTaken(sorted, limit);
  }

  lemma HeadTaken(s: seq<Record>, n: nat)
    ensures Head(s, n) == s[..Taken(|s|, n)]
  {
  }

  lemma TailTaken(s: seq<Record>, n: nat)
    ensures Tail(s, n) == s[|s| - Taken(|s|, n)..]
  {
    if n == 0 {
      assert s[|s|..] == [];
    }
  }

  /**
   * Both lists are in descending order; no row outside the gainers beats a
   * gainer, and no loser beats a row outside the losers.
   */
  lemma GainersLosersOrder(rows: seq<Record>, limit: nat)
    requires rows != []
    ensures SortedDesc(GainersLosers(Data(rows), limit).0)
    ensures SortedDesc(GainersLosers(Data(rows), limit).1)
    ensures var sorted := SortByPctDesc(rows);
      var k := Taken(|rows|, limit);
      forall i, j :: 0 <= i < k <= j < |rows| ==> PctAtLeast(PctOf(sorted[i]), PctOf(sorted[j]))
    ensures var sorted := SortByPctDesc(rows);
      var k := Taken(|rows|, limit);
      forall i, j :: 0 <= i < |rows| - k <= j < |rows| ==> PctAtLeast(PctOf(sorted[i]), PctOf(sorted[j]))
  {
    var sorted := SortByPctDesc(rows);
    SortByPctDescSpec(rows);
    GainersLosersSlices(rows, limit);
    var k := Taken(|rows|, limit);
    var gainers := sorted[..k];
    var losers := sorted[|rows| - k..];
    assert forall i :: 0 <= i < |gainers| ==> gainers[i] == sorted[i];
    assert forall i :: 0 <= i < |losers| ==> losers[i] == sorted[|rows| - k + i];
  }

  /**
   * With fewer than 2 * limit rows the two lists overlap: the last gainer
   * is also a loser.
   */
  lemma GainersLosersOverlap(rows: seq<Record>, limit: nat)
    requires rows != [] && |rows| < 2 * limit
    ensures var (gainers, losers) := GainersLosers(Data(rows), limit);
      gainers != [] && gainers[|gainers| - 1] in losers
  {
    var sorted := SortByPctDesc(rows);
    GainersLosersSlices(rows, limit);
    var k := Taken(|rows|, limit);
    var losers := sorted[|rows| - k..];
    assert sorted[..k][k - 1] == sorted[k - 1];
    assert losers[k - 1 - (|rows| - k)] == sorted[k - 1];
  }

  /**
   * With at least 2 * limit rows the gainers, the rows between and the
   * losers split the sorted day into three consecutive parts.
   */
  lemma GainersLosersDisjoint(rows: seq<Record>, limit: nat)
    requires rows != [] && 2 * limit <= |rows|
    ensures var sorted := SortByPctDesc(rows);
      var (gainers, losers) := GainersLosers(Data(rows), limit);
      gainers + sorted[limit..|rows| - limit] + losers == sorted
  {
    var sorted := SortByPctDesc(rows);
    GainersLosersSlices(rows, limit);
    ThreeParts(sorted, limit, |rows| - limit);
  }

  lemma ThreeParts(s: seq<Record>, a: nat, b: nat)
    requires a <= b <= |s|
    ensures s[..a] + s[a..b] + s[b..] == s
  {
  }

  /** An empty day or a failed query gives two empty lists. */
  lemma GainersLosersEmpty(response: Response<Record>, limit: int)
    requires response.QueryFailed? || response.rows == []
    ensures GainersLosers(response, limit) == ([], [])
  {
  }
}
