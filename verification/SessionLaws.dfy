/** What reconnecting guarantees. */
module SessionLaws {
  // And what it would not guarantee if the server resumed after the cursor's block instead of at
  // it.

  import opened Base
  import opened Store
  import opened Events
  import opened Session
  import EventLaws
  import Lifting
  import Process
  import Selection

  lemma {:induction false} FreshStoreIsSynced<L>(chain: seq<ChainTx<L>>)
    ensures SyncedAt<L>(chain, map[], None, 0)
  {}

  lemma {:induction false} PrefixTable<L>(chain: seq<ChainTx<L>>, longer: seq<ChainTx<L>>, n: nat)
    requires chain <= longer && n <= |chain|
    ensures TableOf(chain, n) == TableOf(longer, n)
  {
    if n > 0 {
      PrefixTable(chain, longer, n - 1);
      assert chain[n - 1] == longer[n - 1];
    }
  }

  /** A store that is synced stays so while the chain grows, so a later process can take over. */
  lemma {:induction false} ChainGrows<L>(
      chain: seq<ChainTx<L>>, longer: seq<ChainTx<L>>, table: Table<L>, row: Option<StoredCursor>, n: nat)
    requires chain <= longer && SyncedAt(chain, table, row, n)
    ensures SyncedAt(longer, table, row, n)
  {
    hide InBlocks, TableOf, CursorOf;
    PrefixTable(chain, longer, n);
    PrefixCursor(chain, longer, n);
    if row.Some? {
      var q :| 0 <= q < n && chain[q].effect.Commit? && row.value == StoredPoint(chain[q].point);
      assert longer[q] == chain[q];
    }
    assert forall i | 0 <= i < n :: longer[i] == chain[i];
  }

  lemma {:induction false} PrefixCursor<L>(chain: seq<ChainTx<L>>, longer: seq<ChainTx<L>>, n: nat)
    requires chain <= longer && n <= |chain|
    ensures CursorOf(chain, n) == CursorOf(longer, n)
    ensures InBlocks(longer) ==> InBlocks(chain)
  {
    assert forall i | 0 <= i < |chain| :: chain[i] == longer[i];
    if n > 0 { PrefixCursor(chain, longer, n - 1); }
  }

  // ----- runs with a gap

  /** Applying the transactions from `m` up to `k` to a table. */
  function Continue<L>(t: Table<L>, chain: seq<ChainTx<L>>, m: nat, k: nat): Table<L>
    requires m <= k <= |chain|
    decreases k
  {
    if k == m then t
    else
      var before := Continue(t, chain, m, k - 1);
      if chain[k - 1].effect.Commit? then InsertAll(before, chain[k - 1].effect.rows) else before
  }

  lemma {:induction false} ContinueFromPrefix<L>(chain: seq<ChainTx<L>>, m: nat, k: nat)
    requires m <= k <= |chain|
    ensures Continue(TableOf(chain, m), chain, m, k) == TableOf(chain, k)
    decreases k
  {
    if m < k { ContinueFromPrefix(chain, m, k - 1); }
  }

  /** Every transaction is on the chain once, and its rows are one batch. */
  ghost predicate DistinctBatches<L>(chain: seq<ChainTx<L>>) {
    && (forall i | 0 <= i < |chain| && chain[i].effect.Commit? ::
      IsBatch(chain[i].effect.rows, chain[i].txHash, chain[i].point))
    && (forall i, j | 0 <= i < j < |chain| :: chain[i].txHash != chain[j].txHash)
  }

  lemma {:induction false} KeyOrigin<L>(t: Table<L>, chain: seq<ChainTx<L>>, m: nat, k: nat, key: RowKey)
    requires m <= k <= |chain| && DistinctBatches(chain) && key in Continue(t, chain, m, k)
    ensures key in t || exists i :: m <= i < k && chain[i].txHash == key.txHash
    decreases k
  {
    if m < k {
      var before := Continue(t, chain, m, k - 1);
      if key in before {
        KeyOrigin(t, chain, m, k - 1, key);
      } else {
        InsertAllMerges(before, chain[k - 1].effect.rows);
        BatchIsOfTx(chain[k - 1].effect.rows, chain[k - 1].txHash, chain[k - 1].point, key);
      }
    }
  }

  /** An uninterrupted run stores every row of every transaction as it is. */
  lemma {:induction false} UninterruptedStoresAll<L>(chain: seq<ChainTx<L>>, p: nat, n: nat, i: nat)
    requires DistinctBatches(chain) && p < n <= |chain|
    requires chain[p].effect.Commit? && i < |chain[p].effect.rows|
    ensures var row := chain[p].effect.rows[i];
      KeyOf(row) in TableOf(chain, n) && TableOf(chain, n)[KeyOf(row)] == Stored(row)
    ensures Keeps(TableOf(chain, n), chain[p].effect.rows[i])
  {
    var row := chain[p].effect.rows[i];
    if p < n - 1 {
      UninterruptedStoresAll(chain, p, n - 1, i);
      if chain[n - 1].effect.Commit? { InsertAllMerges(TableOf(chain, n - 1), chain[n - 1].effect.rows); }
    } else {
      ContinueFromPrefix(chain, 0, p);
      forall k | k in TableOf(chain, p) ensures k.txHash != chain[p].txHash {
        KeyOrigin(map[], chain, 0, p, k);
      }
      NewBatchInsertsAll(TableOf(chain, p), chain[p].effect.rows, chain[p].txHash, chain[p].point);
    }
  }

  /** Dropping out after `n` transactions and resuming at `m` gives the table of the whole chain
      exactly when the skipped transactions have no rows. Resuming after the cursor's block is
      such a skip when the session dropped inside the block. */
  lemma {:induction false} SkippingLosesRows<L>(chain: seq<ChainTx<L>>, n: nat, m: nat)
    requires DistinctBatches(chain) && n <= m <= |chain|
    ensures Continue(TableOf(chain, n), chain, m, |chain|) == TableOf(chain, |chain|) <==>
      forall i | n <= i < m && chain[i].effect.Commit? :: chain[i].effect.rows == []
  {
    if i :| n <= i < m && chain[i].effect.Commit? && chain[i].effect.rows != [] {
      RowIsLost(chain, n, m, i);
    } else {
      NothingSkipped(chain, n, m);
      ContinueFromPrefix(chain, m, |chain|);
    }
  }

  lemma {:induction false} RowIsLost<L>(chain: seq<ChainTx<L>>, n: nat, m: nat, i: nat)
    requires DistinctBatches(chain) && n <= i < m <= |chain|
    requires chain[i].effect.Commit? && chain[i].effect.rows != []
    ensures Continue(TableOf(chain, n), chain, m, |chain|) != TableOf(chain, |chain|)
  {
    var key := KeyOf(chain[i].effect.rows[0]);
    UninterruptedStoresAll(chain, i, |chain|, 0);
    if key in Continue(TableOf(chain, n), chain, m, |chain|) {
      KeyOrigin(TableOf(chain, n), chain, m, |chain|, key);
      ContinueFromPrefix(chain, 0, n);
      if key in TableOf(chain, n) { KeyOrigin(map[], chain, 0, n, key); }
    }
  }

  lemma {:induction false} NothingSkipped<L>(chain: seq<ChainTx<L>>, n: nat, m: nat)
    requires n <= m <= |chain|
    requires forall i | n <= i < m && chain[i].effect.Commit? :: chain[i].effect.rows == []
    ensures TableOf(chain, n) == TableOf(chain, m)
  {
    if n < m { NothingSkipped(chain, n, m - 1); }
  }

  // ----- the cursor's block

  /** Every row that the transactions of a block have is in the table. */
  ghost predicate BlockStored<L>(chain: seq<ChainTx<L>>, table: Table<L>, hash: Hash32) {
    forall i, k | 0 <= i < |chain| && chain[i].point.hash == hash && chain[i].effect.Commit? &&
                  0 <= k < |chain[i].effect.rows| ::
      Keeps(table, chain[i].effect.rows[k])
  }

  /** Transaction `i` has rows that an apply event would store. */
  ghost predicate HasMatches<L>(chain: seq<ChainTx<L>>, i: nat) {
    i < |chain| && chain[i].effect.Commit? && chain[i].effect.rows != []
  }

  /** What is not applied yet has nothing in the table. */
  lemma {:induction false} AheadIsAbsent<L>(chain: seq<ChainTx<L>>, n: nat, i: nat)
    requires DistinctBatches(chain) && n <= i < |chain|
    ensures forall key | key in TableOf(chain, n) :: key.txHash != chain[i].txHash
  {
    ContinueFromPrefix(chain, 0, n);
    forall key | key in TableOf(chain, n) ensures key.txHash != chain[i].txHash {
      KeyOrigin(map[], chain, 0, n, key);
    }
  }

  /** A block has all its matches committed if and only if none of its transactions that is
      still to come has any. */
  lemma {:induction false} BlockStoredExactly<L>(
      chain: seq<ChainTx<L>>, table: Table<L>, row: Option<StoredCursor>, n: nat, hash: Hash32)
    requires DistinctBatches(chain) && SyncedAt(chain, table, row, n)
    ensures BlockStored(chain, table, hash) <==>
      forall i | n <= i < |chain| && chain[i].point.hash == hash :: !HasMatches(chain, i)
  {
    if i :| n <= i < |chain| && chain[i].point.hash == hash && HasMatches(chain, i) {
      AheadIsAbsent(chain, n, i);
      assert !Keeps(table, chain[i].effect.rows[0]);
    } else {
      forall i: nat, k: nat | i < |chain| && chain[i].point.hash == hash && chain[i].effect.Commit? &&
                              k < |chain[i].effect.rows|
        ensures Keeps(table, chain[i].effect.rows[k])
      {
        assert HasMatches(chain, i);
        UninterruptedStoresAll(chain, i, n, k);
      }
    }
  }

  /** The documented meaning of the cursor: the block of transaction `q` has all its matches
      committed, so has every block before it, and nothing of any later one is stored. */
  ghost predicate HighestStored<L>(chain: seq<ChainTx<L>>, table: Table<L>, q: nat)
    requires q < |chain|
  {
    && (forall i | 0 <= i <= q :: BlockStored(chain, table, chain[i].point.hash))
    && (forall i, key | q < i < |chain| && chain[i].point.hash != chain[q].point.hash && key in table ::
          key.txHash != chain[i].txHash)
  }

  lemma {:induction false} EarlierBlockStored<L>(
      chain: seq<ChainTx<L>>, table: Table<L>, row: Option<StoredCursor>, n: nat, q: nat, i: nat)
    requires InBlocks(chain) && DistinctBatches(chain) && SyncedAt(chain, table, row, n)
    requires i < q < n && chain[i].point.hash != chain[q].point.hash
    ensures BlockStored(chain, table, chain[i].point.hash)
  {
    hide BlockStored, InBlocks, DistinctBatches;
    forall j | n <= j < |chain| ensures chain[j].point.hash != chain[i].point.hash {
      BlockIsOver(chain, i, q, j);
    }
    BlockStoredExactly(chain, table, row, n, chain[i].point.hash);
  }

  /** The cursor names the block of the last committed transaction. It has the documented
      meaning if and only if no transaction of that block that is still to come has matches;
      the rest of the documented meaning holds always. */
  lemma {:induction false} CursorIsHighestExactly<L>(
      chain: seq<ChainTx<L>>, table: Table<L>, row: Option<StoredCursor>, n: nat) returns (q: nat)
    requires InBlocks(chain) && DistinctBatches(chain) && SyncedAt(chain, table, row, n) && row.Some?
    ensures q < n && chain[q].effect.Commit? && row == Some(StoredPoint(chain[q].point))
    ensures forall i | 0 <= i < q && chain[i].point.hash != chain[q].point.hash ::
      BlockStored(chain, table, chain[i].point.hash)
    ensures forall i, key | q < i < |chain| && chain[i].effect.Commit? && key in table :: key.txHash != chain[i].txHash
    ensures HighestStored(chain, table, q) <==>
      forall i | n <= i < |chain| && chain[i].point.hash == chain[q].point.hash :: !HasMatches(chain, i)
  {
    q := LastCommit(chain, n);
    hide BlockStored, InBlocks, DistinctBatches, SyncedAt, HasMatches;
    forall i | 0 <= i < q && chain[i].point.hash != chain[q].point.hash
      ensures BlockStored(chain, table, chain[i].point.hash)
    {
      EarlierBlockStored(chain, table, row, n, q, i);
    }
    forall i: nat, key | q < i < |chain| && (chain[i].effect.Commit? || i >= n) && key in table
      ensures key.txHash != chain[i].txHash
    {
      AheadIsAbsent(chain, n, i);
    }
    forall i: nat, key | q < i < n && key in table ensures key.txHash != chain[i].txHash {
      SkippedIsAbsent(chain, n, i, key);
    }
    BlockStoredExactly(chain, table, row, n, chain[q].point.hash);
  }

  /** If the server resumed after the cursor's block instead of at it, at `m`, the table would
      end up whole if and only if that block had all its matches committed. */
  lemma {:induction false} ResumingAfterBlock<L>(
      chain: seq<ChainTx<L>>, table: Table<L>, row: Option<StoredCursor>, n: nat, hash: Hash32, m: nat)
    requires InBlocks(chain) && DistinctBatches(chain) && SyncedAt(chain, table, row, n)
    requires exists q :: 0 <= q < n && chain[q].point.hash == hash
    requires n <= m <= |chain| && forall i | n <= i < m :: chain[i].point.hash == hash
    requires m < |chain| ==> chain[m].point.hash != hash
    ensures Continue(table, chain, m, |chain|) == TableOf(chain, |chain|) <==> BlockStored(chain, table, hash)
  {
    var q :| 0 <= q < n && chain[q].point.hash == hash;
    forall i | m <= i < |chain| ensures chain[i].point.hash != hash { BlockIsOver(chain, q, m, i); }
    BlockStoredExactly(chain, table, row, n, hash);
    SkippingLosesRows(chain, n, m);
    assert forall i | n <= i < m :: HasMatches(chain, i) <==> chain[i].effect.Commit? && chain[i].effect.rows != [];
  }

  /** Two transactions of one block that both have matches, one of them applied. */
  lemma {:induction false} SecondIsMissing<L>(chain: seq<ChainTx<L>>)
    requires |chain| == 2 && chain[0].point == chain[1].point && DistinctBatches(chain)
    requires HasMatches(chain, 0) && HasMatches(chain, 1)
    ensures InBlocks(chain)
    ensures SyncedAt(chain, TableOf(chain, 1), StoredOf(Some(chain[0].point)), 1)
    ensures !BlockStored(chain, TableOf(chain, 1), chain[0].point.hash)
  {
    var table, row := TableOf(chain, 1), StoredOf(Some(chain[0].point));
    assert CursorOf(chain, 1) == Some(chain[0].point);
    assert SyncedAt(chain, table, row, 1);
    BlockStoredExactly(chain, table, row, 1, chain[0].point.hash);
  }

  /** A block does not come back after another one. */
  lemma {:induction false} BlockIsOver<L>(chain: seq<ChainTx<L>>, i: nat, q: nat, j: nat)
    requires InBlocks(chain) && i < q <= j < |chain| && chain[i].point.hash != chain[q].point.hash
    ensures chain[j].point.hash != chain[i].point.hash
  {
    var before, other, after := chain[i].point, chain[q].point, chain[j].point;
    assert before.hash == after.hash ==> other == before;
  }

  /** A transaction that was skipped has nothing in the table. */
  lemma {:induction false} SkippedIsAbsent<L>(chain: seq<ChainTx<L>>, n: nat, i: nat, key: RowKey)
    requires DistinctBatches(chain) && i < n <= |chain| && !chain[i].effect.Commit?
    requires key in TableOf(chain, n)
    ensures key.txHash != chain[i].txHash
  {
    if chain[n - 1].effect.Commit? {
      var rows := chain[n - 1].effect.rows;
      InsertAllMerges(TableOf(chain, n - 1), rows);
      if key in Batch(rows) { BatchIsOfTx(rows, chain[n - 1].txHash, chain[n - 1].point, key); }
    }
    if i < n - 1 {
      if key in TableOf(chain, n - 1) { SkippedIsAbsent(chain, n - 1, i, key); }
    } else {
      AheadIsAbsent(chain, n - 1, i);
    }
  }

  // ----- chains of events

  /** The chain that a stream of apply events amounts to under a configuration. */
  ghost predicate Carries(events: seq<AnyChainTx>, sources: seq<Process.Source>, mode: Selection.MatchMode,
                          chain: seq<ChainTx<Lifting.Lifted>>)
  {
    |chain| == |events| &&
    forall i | 0 <= i < |events| ::
      && EffectOf(events[i], sources, mode, chain[i].effect)
      && (!Ignored(events[i]) && events[i].block.value.Decodable? ==>
            chain[i].txHash == events[i].chain.value.hash &&
            chain[i].point == ChainPoint(events[i].block.value.block.slot, events[i].block.value.block.hash))
  }

  /** Every stream of apply events is such a chain, and its effects are determined by the
      events; where no transaction comes twice its batches are distinct. */
  lemma {:induction false} EventsMakeAChain(
      events: seq<AnyChainTx>, sources: seq<Process.Source>, mode: Selection.MatchMode,
      chain: seq<ChainTx<Lifting.Lifted>>, other: seq<ChainTx<Lifting.Lifted>>)
    requires Carries(events, sources, mode, chain) && Carries(events, sources, mode, other)
    ensures IsChain(chain)
    ensures forall i | 0 <= i < |chain| :: chain[i].effect == other[i].effect
    ensures (forall i, j | 0 <= i < j < |chain| :: chain[i].txHash != chain[j].txHash) ==> DistinctBatches(chain)
  {
    forall i | 0 <= i < |chain| ensures chain[i].effect == other[i].effect {
      EventLaws.EffectUnique(events[i], sources, mode, chain[i].effect, other[i].effect);
    }
    forall i | 0 <= i < |chain| && chain[i].effect.Commit?
      ensures chain[i].effect.point == chain[i].point && IsBatch(chain[i].effect.rows, chain[i].txHash, chain[i].point)
    {
      EventLaws.CommitIsBatch(events[i], sources, mode, chain[i].effect.point, chain[i].effect.rows);
    }
  }
}
