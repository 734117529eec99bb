/**
 * `load_stock_data`: the upload in batches of 100 against a store that
 * upserts on the (symbol, date) key and may refuse any batch.
 */
module Load {
  import opened Wrappers
  import opened Rows
  import opened Records
  import opened Transform

  /** Records per upsert call. */
  const BatchSize: nat := 100

  /** The natural key of a stored row; a field the record lacks reads as null. */
  type StoreKey = (Cell, Cell)

  function KeyOf(rec: Record): StoreKey {
    (if SymbolCol in rec then rec[SymbolCol] else Null, if DateCol in rec then rec[DateCol] else Null)
  }

  // ---------------------------------------------------------------------
  // Upsert
  // ---------------------------------------------------------------------

  /** The table after upserting `batch` in order: a new key is inserted, an existing one overwritten. */
  function Upserted(table: map<StoreKey, Record>, batch: seq<Record>): map<StoreKey, Record>
    decreases |batch|
  {
    if batch == [] then table
    else Upserted(table[KeyOf(batch[0]) := batch[0]], batch[1..])
  }

  /** Upserting lays the batch's records over the table: keys it does not mention are untouched. */
  lemma {:induction false} UpsertedOverlay(table: map<StoreKey, Record>, batch: seq<Record>)
    ensures Upserted(table, batch) == table + Upserted(map[], batch)
    decreases |batch|
  {
    if batch != [] {
      var k := KeyOf(batch[0]);
      UpsertedOverlay(table[k := batch[0]], batch[1..]);
      UpsertedOverlay(map[k := batch[0]], batch[1..]);
      assert table[k := batch[0]] == table + map[k := batch[0]];
    }
  }

  /** Upserting the same records again changes nothing. */
  lemma UpsertedIdempotent(table: map<StoreKey, Record>, batch: seq<Record>)
    ensures Upserted(Upserted(table, batch), batch) == Upserted(table, batch)
  {
    UpsertedOverlay(table, batch);
    UpsertedOverlay(Upserted(table, batch), batch);
  }

  /** Upserting two batches in turn is upserting their concatenation. */
  lemma {:induction false} UpsertedAppend(table: map<StoreKey, Record>, a: seq<Record>, b: seq<Record>)
    ensures Upserted(table, a + b) == Upserted(Upserted(table, a), b)
    decreases |a|
  {
    if a != [] {
      assert (a + b)[1..] == a[1..] + b;
      UpsertedAppend(table[KeyOf(a[0]) := a[0]], a[1..], b);
    } else {
      assert a + b == b;
    }
  }

  /** After an upsert, each key of the batch holds the last record with that key, and other keys are as before. */
  lemma {:induction false} UpsertedAt(table: map<StoreKey, Record>, batch: seq<Record>, k: StoreKey)
    ensures (exists i :: 0 <= i < |batch| && KeyOf(batch[i]) == k) ==>
      k in Upserted(table, batch) &&
      exists i :: 0 <= i < |batch| && KeyOf(batch[i]) == k && Upserted(table, batch)[k] == batch[i] &&
                  forall j :: i < j < |batch| ==> KeyOf(batch[j]) != k
    ensures (forall i :: 0 <= i < |batch| ==> KeyOf(batch[i]) != k) ==>
      (k in Upserted(table, batch) <==> k in table) &&
      (k in table ==> Upserted(table, batch)[k] == table[k])
    decreases |batch|
  {
    if batch != [] {
      var t := table[KeyOf(batch[0]) := batch[0]];
      UpsertedAt(t, batch[1..], k);
      var rest := batch[1..];
      if exists i :: 0 <= i < |rest| && KeyOf(rest[i]) == k {
        var i :| 0 <= i < |rest| && KeyOf(rest[i]) == k && Upserted(t, rest)[k] == rest[i] &&
                 forall j :: i < j < |rest| ==> KeyOf(rest[j]) != k;
        assert batch[i + 1] == rest[i];
        forall j | i + 1 < j < |batch| ensures KeyOf(batch[j]) != k {
          assert batch[j] == rest[j - 1];
        }
      } else if KeyOf(batch[0]) == k {
        forall j | 0 < j < |batch| ensures KeyOf(batch[j]) != k {
          assert batch[j] == rest[j - 1];
        }
      } else {
        forall i | 0 <= i < |batch| ensures KeyOf(batch[i]) != k {
          if i > 0 {
            assert batch[i] == rest[i - 1];
          }
        }
      }
    }
  }

  /** The shared table. Each upsert call either applies its whole batch or fails and changes nothing. */
  class Store {
    var table: map<StoreKey, Record>
    /** Every batch submitted, in order, whatever became of it. */
    ghost var attempts: seq<seq<Record>>

    constructor (initial: map<StoreKey, Record>)
      ensures table == initial && attempts == []
    {
      table := initial;
      attempts := [];
    }

    /** `upsert(batch).execute()`: succeeds or raises, at the store's discretion. */
    method Upsert(batch: seq<Record>) returns (ok: bool)
      modifies this
      ensures attempts == old(attempts) + [batch]
      ensures table == if ok then Upserted(old(table), batch) else old(table)
    {
      attempts := attempts + [batch];
      ok :| true;
      if ok {
        table := Upserted(table, batch);
      }
    }
  }

  // ---------------------------------------------------------------------
  // Batches
  // ---------------------------------------------------------------------

  /** `records[i:i + 100]` for i = 0, 100, 200, ... below the record count. */
  function Batches(records: seq<Record>): (bs: seq<seq<Record>>)
    decreases |records|
  {
    if |records| == 0 then []
    else
      var size := Min(BatchSize, |records|);
      [records[..size]] + Batches(records[size..])
  }

  function Flatten(bs: seq<seq<Record>>): seq<Record> {
    if bs == [] then [] else bs[0] + Flatten(bs[1..])
  }

  /**
   * The batches put back together are the records; there are ceil(n / 100)
   * of them, none empty, and all but the last hold exactly 100.
   */
  lemma {:induction false} BatchesPartition(records: seq<Record>)
    ensures Flatten(Batches(records)) == records
    ensures |Batches(records)| == (|records| + BatchSize - 1) / BatchSize
    ensures forall k :: 0 <= k < |Batches(records)| ==> 0 < |Batches(records)[k]| <= BatchSize
    ensures forall k :: 0 <= k < |Batches(records)| - 1 ==> |Batches(records)[k]| == BatchSize
    decreases |records|
  {
    if |records| > 0 {
      var size := Min(BatchSize, |records|);
      var rest := records[size..];
      BatchesPartition(rest);
      var bs := Batches(records);
      assert bs[1..] == Batches(rest);
      assert records == records[..size] + rest;
      forall k | 0 < k < |bs| ensures bs[k] == Batches(rest)[k - 1] {
      }
    }
  }

  /** Batch k is the slice starting at offset 100 * k. */
  lemma {:induction false} BatchAt(records: seq<Record>, k: nat)
    requires k < |Batches(records)|
    ensures BatchSize * k < |records|
    ensures Batches(records)[k] == records[BatchSize * k..Min(BatchSize * k + BatchSize, |records|)]
    decreases |records|
  {
    var size := Min(BatchSize, |records|);
    if k > 0 {
      var rest := records[size..];
      assert Batches(records)[k] == Batches(rest)[k - 1];
      BatchAt(rest, k - 1);
      assert size == BatchSize;
      assert rest[BatchSize * (k - 1)..Min(BatchSize * (k - 1) + BatchSize, |rest|)]
          == records[BatchSize * k..Min(BatchSize * k + BatchSize, |records|)];
    }
  }

  // ---------------------------------------------------------------------
  // Accounting
  // ---------------------------------------------------------------------

  /** Records in the batches that succeeded. */
  function SavedCount(bs: seq<seq<Record>>, ok: seq<bool>): nat
    requires |ok| == |bs|
  {
    if bs == [] then 0
    else SavedCount(bs[..|bs| - 1], ok[..|ok| - 1]) + (if ok[|ok| - 1] then |bs[|bs| - 1]| else 0)
  }

  /** Records in the batches that failed. */
  function FailedCount(bs: seq<seq<Record>>, ok: seq<bool>): nat
    requires |ok| == |bs|
  {
    if bs == [] then 0
    else FailedCount(bs[..|bs| - 1], ok[..|ok| - 1]) + (if ok[|ok| - 1] then 0 else |bs[|bs| - 1]|)
  }

  /** The table after the batches, the successful ones upserted in order and the failed ones skipped. */
  function Applied(table: map<StoreKey, Record>, bs: seq<seq<Record>>, ok: seq<bool>): map<StoreKey, Record>
    requires |ok| == |bs|
  {
    if bs == [] then table
    else
      var before := Applied(table, bs[..|bs| - 1], ok[..|ok| - 1]);
      if ok[|ok| - 1] then Upserted(before, bs[|bs| - 1]) else before
  }

  lemma {:induction false} FlattenSnoc(bs: seq<seq<Record>>)
    requires bs != []
    ensures Flatten(bs) == Flatten(bs[..|bs| - 1]) + bs[|bs| - 1]
  {
    if |bs| > 1 {
      FlattenSnoc(bs[1..]);
      assert bs[1..][..|bs| - 2] == bs[..|bs| - 1][1..];
    } else {
      assert Flatten(bs[1..]) == [];
    }
  }

  /** Saved and failed records together are all the records. */
  lemma {:induction false} CountsAddUp(bs: seq<seq<Record>>, ok: seq<bool>)
    requires |ok| == |bs|
    ensures SavedCount(bs, ok) + FailedCount(bs, ok) == |Flatten(bs)|
  {
    if bs != [] {
      CountsAddUp(bs[..|bs| - 1], ok[..|ok| - 1]);
      FlattenSnoc(bs);
    }
  }

  /** When every batch succeeds, everything is saved and the store holds every record upserted. */
  lemma {:induction false} AllSucceeded(table: map<StoreKey, Record>, bs: seq<seq<Record>>, ok: seq<bool>)
    requires |ok| == |bs| && forall k :: 0 <= k < |ok| ==> ok[k]
    ensures SavedCount(bs, ok) == |Flatten(bs)|
    ensures Applied(table, bs, ok) == Upserted(table, Flatten(bs))
  {
    if bs != [] {
      AllSucceeded(table, bs[..|bs| - 1], ok[..|ok| - 1]);
      FlattenSnoc(bs);
      UpsertedAppend(table, Flatten(bs[..|bs| - 1]), bs[|bs| - 1]);
    }
  }

  /**
   * Nothing is saved exactly when every non-empty batch failed; then the
   * store is as before.
   */
  lemma {:induction false} NothingSaved(table: map<StoreKey, Record>, bs: seq<seq<Record>>, ok: seq<bool>)
    requires |ok| == |bs| && forall k :: 0 <= k < |bs| ==> |bs[k]| > 0
    ensures SavedCount(bs, ok) == 0 <==> forall k :: 0 <= k < |ok| ==> !ok[k]
    ensures SavedCount(bs, ok) == 0 ==> Applied(table, bs, ok) == table
  {
    if bs != [] {
      NothingSaved(table, bs[..|bs| - 1], ok[..|ok| - 1]);
    }
  }

  /** Loading the same records a second time, all batches succeeding, leaves the store as the first load did. */
  lemma ReloadIdempotent(table: map<StoreKey, Record>, records: seq<Record>, first: seq<bool>, second: seq<bool>)
    requires |first| == |second| == |Batches(records)|
    requires forall k :: 0 <= k < |first| ==> first[k] && second[k]
    ensures Applied(Applied(table, Batches(records), first), Batches(records), second)
         == Applied(table, Batches(records), first)
  {
    BatchesPartition(records);
    AllSucceeded(table, Batches(records), first);
    AllSucceeded(Applied(table, Batches(records), first), Batches(records), second);
    UpsertedIdempotent(table, records);
  }

  // ---------------------------------------------------------------------
  // load_stock_data
  // ---------------------------------------------------------------------

  /** The loader's state after the first `|outcomes|` batches. */
  ghost predicate Progress(table0: map<StoreKey, Record>, attempts0: seq<seq<Record>>, batches: seq<seq<Record>>,
                           outcomes: seq<bool>, table: map<StoreKey, Record>, attempts: seq<seq<Record>>,
                           inserted: nat, failed: nat)
  {
    |outcomes| <= |batches| &&
    attempts == attempts0 + batches[..|outcomes|] &&
    table == Applied(table0, batches[..|outcomes|], outcomes) &&
    inserted == SavedCount(batches[..|outcomes|], outcomes) &&
    failed == FailedCount(batches[..|outcomes|], outcomes)
  }

  /** One more batch, accepted or refused, advances the state by that batch. */
  lemma ProgressStep(table0: map<StoreKey, Record>, attempts0: seq<seq<Record>>, batches: seq<seq<Record>>,
                     outcomes: seq<bool>, table: map<StoreKey, Record>, attempts: seq<seq<Record>>,
                     inserted: nat, failed: nat, ok: bool)
    requires Progress(table0, attempts0, batches, outcomes, table, attempts, inserted, failed)
    requires |outcomes| < |batches|
    ensures var b := batches[|outcomes|];
      Progress(table0, attempts0, batches, outcomes + [ok],
               if ok then Upserted(table, b) else table, attempts + [b],
               if ok then inserted + |b| else inserted, if ok then failed else failed + |b|)
  {
    var n := |outcomes|;
    var next := outcomes + [ok];
    assert batches[..n + 1][..n] == batches[..n];
    assert next[..n] == outcomes;
  }

  /** After the last batch the loader's state is that of all the batches. */
  lemma ProgressDone(table0: map<StoreKey, Record>, attempts0: seq<seq<Record>>, batches: seq<seq<Record>>,
                     outcomes: seq<bool>, table: map<StoreKey, Record>, attempts: seq<seq<Record>>,
                     inserted: nat, failed: nat)
    requires Progress(table0, attempts0, batches, outcomes, table, attempts, inserted, failed)
    requires |outcomes| == |batches|
    ensures attempts == attempts0 + batches
    ensures table == Applied(table0, batches, outcomes)
    ensures inserted == SavedCount(batches, outcomes)
    ensures inserted + failed == |Flatten(batches)|
  {
    assert batches[..|outcomes|] == batches;
    CountsAddUp(batches, outcomes);
  }

  /** `df.to_dict('records')`, then the loop that turns each date into text. */
  method PrepareRecords(rows: seq<Row>, columns: set<Column>) returns (records: seq<Record>)
    requires |rows| > 0 && columns != {}
    ensures records == Prepared(rows, columns)
  {
    records := ToRecords(rows, columns);
    records := StringifyDates(records);
  }

  /**
   * `load_stock_data(supabase, df)`: returns the number of records in the
   * batches the store accepted. `outcomes` records, batch by batch, whether
   * the store accepted it.
   */
  method LoadStockData(store: Store, df: Frame) returns (inserted: nat, ghost outcomes: seq<bool>)
    modifies store
    ensures var batches := Batches(Prepared(df.rows, df.columns));
      |outcomes| == |batches| &&
      store.attempts == old(store.attempts) + batches &&
      store.table == Applied(old(store.table), batches, outcomes) &&
      inserted == SavedCount(batches, outcomes)
    ensures inserted <= |df.rows|
  {
    outcomes := [];
    if |df.rows| == 0 || df.columns == {} {
      inserted := 0;
      return;
    }
    var records := PrepareRecords(df.rows, df.columns);
    ghost var batches := Batches(records);
    BatchesPartition(records);
    var insertedCount: nat := 0;
    var failedCount: nat := 0;
    var i := 0;
    while i < |records|
      invariant i == BatchSize * |outcomes|
      invariant i < |records| <==> |outcomes| < |batches|
      invariant Progress(old(store.table), old(store.attempts), batches, outcomes,
                         store.table, store.attempts, insertedCount, failedCount)
    {
      var batch := records[i..Min(i + BatchSize, |records|)];
      BatchAt(records, |outcomes|);
      ghost var table, attempts := store.table, store.attempts;
      var ok := store.Upsert(batch);
      ProgressStep(old(store.table), old(store.attempts), batches, outcomes,
                   table, attempts, insertedCount, failedCount, ok);
      if ok {
        insertedCount := insertedCount + |batch|;
      } else {
        failedCount := failedCount + |batch|;
      }
      outcomes := outcomes + [ok];
      i := i + BatchSize;
    }
    ProgressDone(old(store.table), old(store.attempts), batches, outcomes,
                 store.table, store.attempts, insertedCount, failedCount);
    inserted := insertedCount;
  }
}
