/** The tracker's persistent state (bin/tracker/src/store.rs). */
module Store {
  // It is a table of matches and a cursor. A SQLite transaction is a copy of the state
  // that commits as a whole or not at all.

  import opened Base

  type Hash32 = h: Bytes | |h| == 32 witness seq(32, _ => 0)

  datatype ChainPoint = ChainPoint(slot: u64, hash: Hash32)

  /** A row on its way into the table. The lifted JSON is kept as the lifted value. */
  datatype MatchRow<+L> = MatchRow(
    txHash: Bytes,
    blockSlot: u64,
    blockHash: Bytes,
    sourceName: string,
    protocolName: string,
    txName: string,
    profileName: string,
    lifted: L,
    score: u32,
    matchRank: nat)

  datatype RowKey = RowKey(txHash: Bytes, sourceName: string)

  /** A row in the table: SQLite integers are signed. */
  datatype StoredRow<+L> = StoredRow(
    blockSlot: i64,
    blockHash: Bytes,
    protocolName: string,
    txName: string,
    profileName: string,
    lifted: L,
    score: i64,
    matchRank: int)

  datatype StoredCursor = StoredCursor(slot: i64, blockHash: Bytes)

  type Table<L> = map<RowKey, StoredRow<L>>

  /** `n as i64` */
  function ToI64(n: u64): i64 {
    if n < TWO_TO_THE_63 then n else n - TWO_TO_THE_64
  }

  /** `n as u64` */
  function ToU64(n: i64): u64 {
    if n >= 0 then n else n + TWO_TO_THE_64
  }

  function KeyOf<L>(r: MatchRow<L>): RowKey {
    RowKey(r.txHash, r.sourceName)
  }

  function Stored<L>(r: MatchRow<L>): StoredRow<L> {
    StoredRow(ToI64(r.blockSlot), r.blockHash, r.protocolName, r.txName, r.profileName, r.lifted, r.score, r.matchRank)
  }

  function StoredPoint(p: ChainPoint): StoredCursor {
    StoredCursor(ToI64(p.slot), p.hash)
  }

  function StoredOf(p: Option<ChainPoint>): Option<StoredCursor> {
    match p
    case None => None
    case Some(point) => Some(StoredPoint(point))
  }

  /** The point that a cursor row stands for; a hash of another length stands for none. */
  function PointOf(row: Option<StoredCursor>): (p: Option<ChainPoint>)
    ensures row.Some? && |row.value.blockHash| == 32 <==> p.Some?
    ensures p.Some? ==> StoredOf(p) == row
  {
    if row.Some? && |row.value.blockHash| == 32
    then Some(ChainPoint(ToU64(row.value.slot), row.value.blockHash))
    else None
  }

  /** `INSERT OR IGNORE`: the unique key keeps the row that is there. */
  function InsertOrIgnore<L>(t: Table<L>, r: MatchRow<L>): Table<L> {
    if KeyOf(r) in t then t else t[KeyOf(r) := Stored(r)]
  }

  function InsertAll<L>(t: Table<L>, rows: seq<MatchRow<L>>): Table<L> {
    if rows == [] then t else InsertOrIgnore(InsertAll(t, rows[..|rows| - 1]), rows[|rows| - 1])
  }

  function Without<L>(t: Table<L>, txHash: Bytes): Table<L> {
    map k | k in t && k.txHash != txHash :: t[k]
  }

  class Store<L> {
    var matches: Table<L>
    var row: Option<StoredCursor>

    constructor ()
      ensures matches == map[] && row == None
    {
      matches, row := map[], None;
    }

    method Cursor() returns (point: Option<ChainPoint>)
      ensures point == PointOf(row)
    {
      point := None;
      if row.Some? && |row.value.blockHash| == 32 {
        point := Some(ChainPoint(ToU64(row.value.slot), row.value.blockHash));
      }
    }

    /** Insert a batch and move the cursor in one transaction. `fault` is the statement at which
        the database fails or the process dies: one per row, then the cursor, then the commit. */
    method ApplyBlock(cursor: ChainPoint, rows: seq<MatchRow<L>>, fault: Option<nat>) returns (r: Result<nat>)
      modifies this
      ensures r.Err? <==> fault.Some? && fault.value <= |rows| + 1
      ensures r.Err? ==> r == Err(Storage) && matches == old(matches) && row == old(row)
      ensures r.Ok? ==> matches == InsertAll(old(matches), rows) && row == Some(StoredPoint(cursor))
      ensures r.Ok? ==> |matches| == |old(matches)| + r.value
    {
      var table := matches;
      var inserted := 0;
      for i := 0 to |rows|
        invariant matches == old(matches) && row == old(row)
        invariant table == InsertAll(matches, rows[..i])
        invariant |table| == |matches| + inserted
        invariant fault.Some? ==> fault.value >= i
      {
        if fault == Some(i) { return Err(Storage); }
        assert rows[..i + 1][..i] == rows[..i];
        if KeyOf(rows[i]) !in table {
          InsertGrows(table, KeyOf(rows[i]), Stored(rows[i]));
          table := table[KeyOf(rows[i]) := Stored(rows[i])];
          inserted := inserted + 1;
        }
      }
      assert rows[..|rows|] == rows;
      if fault == Some(|rows|) { return Err(Storage); }
      var upserted := Some(StoredPoint(cursor));
      if fault == Some(|rows| + 1) { return Err(Storage); }
      matches, row := table, upserted;
      return Ok(inserted);
    }

    /** Delete the rows of a transaction and rewind or clear the cursor in one transaction. */
    method UndoTx(txHash: Bytes, parent: Option<ChainPoint>, fault: Option<nat>) returns (r: Result<nat>)
      modifies this
      ensures r.Err? <==> fault.Some? && fault.value <= 2
      ensures r.Err? ==> r == Err(Storage) && matches == old(matches) && row == old(row)
      ensures r.Ok? ==> matches == Without(old(matches), txHash)
      ensures r.Ok? ==> row == match parent { case Some(p) => Some(StoredPoint(p)) case None => None }
      ensures r.Ok? ==> |matches| + r.value == |old(matches)|
    {
      if fault == Some(0) { return Err(Storage); }
      var table := Without(matches, txHash);
      var deleted := |set k | k in matches && k.txHash == txHash|;
      WithoutShrinks(matches, txHash);
      if fault == Some(1) { return Err(Storage); }
      var moved := if parent.Some? then Some(StoredPoint(parent.value)) else None;
      if fault == Some(2) { return Err(Storage); }
      matches, row := table, moved;
      return Ok(deleted);
    }
  }

  lemma {:induction false} InsertGrows<L>(t: Table<L>, k: RowKey, v: StoredRow<L>)
    requires k !in t
    ensures |t[k := v]| == |t| + 1
  {
    assert t[k := v].Keys == t.Keys + {k};
    assert |t[k := v].Keys| == |t[k := v]| && |t.Keys| == |t|;
  }

  lemma {:induction false} WithoutShrinks<L>(t: Table<L>, txHash: Bytes)
    ensures |Without(t, txHash)| + |set k | k in t && k.txHash == txHash| == |t|
  {
    var kept, gone := Without(t, txHash).Keys, set k | k in t && k.txHash == txHash;
    assert kept + gone == t.Keys && kept !! gone;
    assert |kept + gone| == |kept| + |gone|;
    assert |kept| == |Without(t, txHash)| && |t.Keys| == |t|;
  }

  /** Reading back what was stored returns it, for every 64-bit slot. */
  lemma {:induction false} CursorRoundTrip(p: ChainPoint, q: ChainPoint)
    ensures ToU64(StoredPoint(p).slot) == p.slot && PointOf(StoredOf(Some(p))) == Some(p)
    ensures StoredPoint(p) == StoredPoint(q) <==> p == q
  {}

  // ----- what a batch does to the table

  /** The table holds the row under its transaction and source, column by column; the slot is
      read back as the unsigned number it was. */
  ghost predicate Keeps<L>(t: Table<L>, r: MatchRow<L>) {
    var key := RowKey(r.txHash, r.sourceName);
    && key in t
    && t[key].blockSlot % TWO_TO_THE_64 == r.blockSlot && t[key].blockHash == r.blockHash
    && t[key].protocolName == r.protocolName && t[key].txName == r.txName && t[key].profileName == r.profileName
    && t[key].lifted == r.lifted
    && t[key].score == r.score && t[key].matchRank == r.matchRank
  }

  /** Inserting a row that is new keeps it. */
  lemma {:induction false} StoredIsKept<L>(t: Table<L>, r: MatchRow<L>)
    requires KeyOf(r) in t && t[KeyOf(r)] == Stored(r)
    ensures Keeps(t, r)
  {}

  /** The first row of a batch with a key. */
  ghost predicate FirstWith<L>(rows: seq<MatchRow<L>>, i: nat, k: RowKey) {
    i < |rows| && KeyOf(rows[i]) == k && forall j | 0 <= j < i :: KeyOf(rows[j]) != k
  }

  /** A batch on its own. */
  function Batch<L>(rows: seq<MatchRow<L>>): Table<L> {
    InsertAll(map[], rows)
  }

  /** The table gains the batch, and wins where both have a key. */
  lemma {:induction false} InsertAllMerges<L>(t: Table<L>, rows: seq<MatchRow<L>>)
    ensures InsertAll(t, rows) == Batch(rows) + t
  {
    if rows == [] {
      assert Batch(rows) + t == t;
    } else {
      var r := rows[|rows| - 1];
      var init := rows[..|rows| - 1];
      InsertAllMerges(t, init);
      assert InsertOrIgnore(Batch(init) + t, r) == InsertOrIgnore(Batch(init), r) + t;
    }
  }

  /** A batch holds a key when some row has it. */
  lemma {:induction false} BatchKeys<L>(rows: seq<MatchRow<L>>, k: RowKey)
    ensures k in Batch(rows) <==> exists i :: 0 <= i < |rows| && KeyOf(rows[i]) == k
  {
    if rows != [] {
      var n := |rows| - 1;
      BatchKeys(rows[..n], k);
      if k in Batch(rows[..n]) {
        var i :| 0 <= i < n && KeyOf(rows[..n][i]) == k;
        assert KeyOf(rows[i]) == k;
      } else {
        assert forall i | 0 <= i < n :: KeyOf(rows[..n][i]) != k && rows[..n][i] == rows[i];
        assert k in Batch(rows) <==> KeyOf(rows[n]) == k;
      }
    }
  }

  /** A key takes the first row of the batch that has it. */
  lemma {:induction false} BatchFirst<L>(rows: seq<MatchRow<L>>, i: nat)
    requires i < |rows| && FirstWith(rows, i, KeyOf(rows[i]))
    ensures KeyOf(rows[i]) in Batch(rows) && Batch(rows)[KeyOf(rows[i])] == Stored(rows[i])
    ensures Keeps(Batch(rows), rows[i])
  {
    var n := |rows| - 1;
    var k := KeyOf(rows[i]);
    if i < n {
      assert FirstWith(rows[..n], i, k);
      BatchFirst(rows[..n], i);
    } else {
      BatchKeys(rows[..n], k);
      assert forall j | 0 <= j < n :: rows[..n][j] == rows[j];
    }
  }

  /** Rows of one transaction, in one block, at most one per source. */
  ghost predicate IsBatch<L>(rows: seq<MatchRow<L>>, txHash: Bytes, point: ChainPoint) {
    && (forall i | 0 <= i < |rows| ::
          rows[i].txHash == txHash && rows[i].blockSlot == point.slot && rows[i].blockHash == point.hash)
    && (forall i, j | 0 <= i < j < |rows| :: rows[i].sourceName != rows[j].sourceName)
  }

  lemma {:induction false} BatchRow<L>(rows: seq<MatchRow<L>>, txHash: Bytes, point: ChainPoint, i: nat)
    requires IsBatch(rows, txHash, point) && i < |rows|
    ensures KeyOf(rows[i]) in Batch(rows) && Batch(rows)[KeyOf(rows[i])] == Stored(rows[i])
  {
    assert FirstWith(rows, i, KeyOf(rows[i]));
    BatchFirst(rows, i);
  }

  lemma {:induction false} BatchSize<L>(rows: seq<MatchRow<L>>, txHash: Bytes, point: ChainPoint)
    requires IsBatch(rows, txHash, point)
    ensures |Batch(rows)| == |rows|
  {
    if rows != [] {
      var n := |rows| - 1;
      var init := rows[..n];
      assert IsBatch(init, txHash, point);
      BatchSize(init, txHash, point);
      BatchKeys(init, KeyOf(rows[n]));
      assert forall i | 0 <= i < n :: init[i] == rows[i];
      InsertGrows(Batch(init), KeyOf(rows[n]), Stored(rows[n]));
    }
  }

  lemma {:induction false} BatchIsOfTx<L>(rows: seq<MatchRow<L>>, txHash: Bytes, point: ChainPoint, k: RowKey)
    requires IsBatch(rows, txHash, point) && k in Batch(rows)
    ensures k.txHash == txHash
    ensures Batch(rows)[k].blockSlot == ToI64(point.slot) && Batch(rows)[k].blockHash == point.hash
  {
    BatchKeys(rows, k);
    var i: nat :| i < |rows| && KeyOf(rows[i]) == k;
    BatchRow(rows, txHash, point, i);
  }

  lemma {:induction false} MergeSize<L>(t: Table<L>, u: Table<L>)
    requires t.Keys !! u.Keys
    ensures |t + u| == |t| + |u|
  {
    assert (t + u).Keys == t.Keys + u.Keys;
    assert |(t + u).Keys| == |t + u| && |t.Keys| == |t| && |u.Keys| == |u|;
  }

  /** A batch for a transaction the table does not know never collides: every row goes in. */
  lemma {:induction false} NewBatchInsertsAll<L>(t: Table<L>, rows: seq<MatchRow<L>>, txHash: Bytes, point: ChainPoint)
    requires IsBatch(rows, txHash, point)
    requires forall k | k in t :: k.txHash != txHash
    ensures |InsertAll(t, rows)| == |t| + |rows|
    ensures forall i | 0 <= i < |rows| ::
      KeyOf(rows[i]) in InsertAll(t, rows) && InsertAll(t, rows)[KeyOf(rows[i])] == Stored(rows[i])
    ensures forall i | 0 <= i < |rows| :: Keeps(InsertAll(t, rows), rows[i])
  {
    InsertAllMerges(t, rows);
    BatchSize(rows, txHash, point);
    forall k | k in Batch(rows) ensures k !in t { BatchIsOfTx(rows, txHash, point, k); }
    MergeSize(Batch(rows), t);
    forall i: nat | i < |rows|
      ensures KeyOf(rows[i]) in InsertAll(t, rows) && InsertAll(t, rows)[KeyOf(rows[i])] == Stored(rows[i])
      ensures Keeps(InsertAll(t, rows), rows[i])
    {
      BatchRow(rows, txHash, point, i);
      StoredIsKept(InsertAll(t, rows), rows[i]);
    }
  }

  /** Delivering rows whose keys are known changes nothing. */
  lemma {:induction false} RedeliveryIsIgnored<L>(t: Table<L>, rows: seq<MatchRow<L>>)
    requires forall i | 0 <= i < |rows| :: KeyOf(rows[i]) in t
    ensures InsertAll(t, rows) == t
  {
    if rows != [] {
      var n := |rows| - 1;
      assert forall i | 0 <= i < n :: rows[..n][i] == rows[i];
      RedeliveryIsIgnored(t, rows[..n]);
    }
  }
}
