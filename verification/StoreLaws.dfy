/** The matches table against the chain as the upstream sees it, over every run of applied,
    redelivered and undone transactions. */
module StoreLaws {
  import opened Base
  import opened Store

  datatype Applied<+L> = Applied(point: ChainPoint, rows: seq<MatchRow<L>>)

  /** The transactions on the chain right now, with their block and the rows they produce. */
  type Chain<L> = map<Bytes, Applied<L>>

  datatype Op<+L> =
    | Apply(txHash: Bytes, point: ChainPoint, rows: seq<MatchRow<L>>)
    | Undo(txHash: Bytes, parent: Option<ChainPoint>)

  function ChainStep<L>(c: Chain<L>, op: Op<L>): Chain<L> {
    match op
    case Apply(h, point, rows) => c[h := Applied(point, rows)]
    case Undo(h, _) => map x | x in c && x != h :: c[x]
  }

  /** What the store does with an event, as its methods promise. */
  function TableStep<L>(t: Table<L>, op: Op<L>): Table<L> {
    match op
    case Apply(_, _, rows) => InsertAll(t, rows)
    case Undo(h, _) => Without(t, h)
  }

  function ChainAfter<L>(ops: seq<Op<L>>): Chain<L> {
    if ops == [] then map[] else ChainStep(ChainAfter(ops[..|ops| - 1]), ops[|ops| - 1])
  }

  function TableAfter<L>(ops: seq<Op<L>>): Table<L> {
    if ops == [] then map[] else TableStep(TableAfter(ops[..|ops| - 1]), ops[|ops| - 1])
  }

  /** The cursor is set by every operation. */
  function CursorStep<L>(op: Op<L>): Option<StoredCursor> {
    match op
    case Apply(_, point, _) => StoredOf(Some(point))
    case Undo(_, parent) => StoredOf(parent)
  }

  function CursorAfter<L>(ops: seq<Op<L>>): Option<StoredCursor> {
    if ops == [] then None else CursorStep(ops[|ops| - 1])
  }

  /** A transaction is applied where it is not on the chain, or delivered again as it stands
      there; it changes block only after being undone. An undo may name any transaction. */
  ghost predicate Orderly<L>(c: Chain<L>, op: Op<L>) {
    op.Apply? ==>
      IsBatch(op.rows, op.txHash, op.point) &&
      (op.txHash in c ==> c[op.txHash] == Applied(op.point, op.rows))
  }

  ghost predicate OrderlyRun<L>(ops: seq<Op<L>>) {
    forall i | 0 <= i < |ops| :: Orderly(ChainAfter(ops[..i]), ops[i])
  }

  ghost predicate Batches<L>(c: Chain<L>) {
    forall h | h in c :: IsBatch(c[h].rows, h, c[h].point)
  }

  /** The table holds exactly the rows of the transactions on the chain. */
  ghost predicate Mirrors<L>(t: Table<L>, c: Chain<L>) {
    && Batches(c)
    && (forall k | k in t :: k.txHash in c && k in Batch(c[k.txHash].rows) && t[k] == Batch(c[k.txHash].rows)[k])
    && (forall h, k | h in c && k in Batch(c[h].rows) :: k in t)
  }

  lemma {:induction false} ApplyNew<L>(t: Table<L>, c: Chain<L>, h: Bytes, point: ChainPoint, rows: seq<MatchRow<L>>)
    requires Mirrors(t, c) && IsBatch(rows, h, point)
    requires h !in c || c[h].rows == []
    ensures Mirrors(InsertAll(t, rows), c[h := Applied(point, rows)])
  {
    var next := c[h := Applied(point, rows)];
    InsertAllMerges(t, rows);
    forall k | k in Batch(rows) ensures k.txHash == h {
      BatchIsOfTx(rows, h, point, k);
    }
    forall k | k in t ensures k.txHash in c && k.txHash != h {
      EmptyBatchAbsent(t, c, k);
    }
    assert Batches(next);
    hide IsBatch, Batch, InsertAll;
    forall k | k in InsertAll(t, rows)
      ensures k.txHash in next && k in Batch(next[k.txHash].rows)
        && InsertAll(t, rows)[k] == Batch(next[k.txHash].rows)[k]
    {
      assert k in t || k in Batch(rows);
    }
    forall g, k | g in next && k in Batch(next[g].rows) ensures k in InsertAll(t, rows) {
      if g != h { assert g in c && k in Batch(c[g].rows); }
    }
  }

  /** A transaction that has no rows on the chain has none in the table. */
  lemma {:induction false} EmptyBatchAbsent<L>(t: Table<L>, c: Chain<L>, k: RowKey)
    requires Mirrors(t, c)
    ensures k.txHash !in c || c[k.txHash].rows == [] ==> k !in t
  {}

  lemma {:induction false} ApplyAgain<L>(t: Table<L>, c: Chain<L>, h: Bytes)
    requires Mirrors(t, c) && h in c
    ensures InsertAll(t, c[h].rows) == t
  {
    var rows := c[h].rows;
    forall i: nat | i < |rows| ensures KeyOf(rows[i]) in t {
      BatchRow(rows, h, c[h].point, i);
    }
    RedeliveryIsIgnored(t, rows);
  }

  lemma {:induction false} UndoMirrors<L>(t: Table<L>, c: Chain<L>, h: Bytes)
    requires Mirrors(t, c)
    ensures Mirrors(Without(t, h), map x | x in c && x != h :: c[x])
  {
    hide IsBatch, Batch;
    var next := map x | x in c && x != h :: c[x];
    forall g, k | g in next && k in Batch(next[g].rows) ensures k in Without(t, h) {
      BatchIsOfTx(next[g].rows, g, next[g].point, k);
    }
  }

  lemma {:induction false} StepMirrors<L>(t: Table<L>, c: Chain<L>, op: Op<L>)
    requires Mirrors(t, c) && Orderly(c, op)
    ensures Mirrors(TableStep(t, op), ChainStep(c, op))
  {
    match op
    case Apply(h, point, rows) =>
      if h in c {
        ApplyAgain(t, c, h);
        assert c[h := Applied(point, rows)] == c;
      } else {
        ApplyNew(t, c, h, point, rows);
      }
    case Undo(h, _) =>
      UndoMirrors(t, c, h);
  }

  /** Over every orderly run the table holds exactly the rows of the transactions that are
      applied at its end. */
  lemma {:induction false} TableMirrorsChain<L>(ops: seq<Op<L>>)
    requires OrderlyRun(ops)
    ensures Mirrors(TableAfter(ops), ChainAfter(ops))
  {
    if ops != [] {
      var n := |ops| - 1;
      var init := ops[..n];
      forall i | 0 <= i < n ensures Orderly(ChainAfter(init[..i]), init[i]) {
        assert init[..i] == ops[..i];
      }
      TableMirrorsChain(init);
      StepMirrors(TableAfter(init), ChainAfter(init), ops[n]);
    }
  }

  /** Some of the rows are of that transaction and source. */
  ghost predicate IsRowOf<L>(k: RowKey, rows: seq<MatchRow<L>>) {
    exists i :: 0 <= i < |rows| && rows[i].txHash == k.txHash && rows[i].sourceName == k.sourceName
  }

  /** The documented invariant: every row belongs to the block its transaction is in now; and
      every row of every applied transaction is there. */
  lemma {:induction false} EveryRowIsCurrent<L>(ops: seq<Op<L>>)
    requires OrderlyRun(ops)
    ensures forall k | k in TableAfter(ops) ::
      k.txHash in ChainAfter(ops) &&
      TableAfter(ops)[k].blockSlot % TWO_TO_THE_64 == ChainAfter(ops)[k.txHash].point.slot &&
      TableAfter(ops)[k].blockHash == ChainAfter(ops)[k.txHash].point.hash
    ensures forall h, i: nat | h in ChainAfter(ops) && i < |ChainAfter(ops)[h].rows| ::
      Keeps(TableAfter(ops), ChainAfter(ops)[h].rows[i])
    ensures forall k | k in TableAfter(ops) :: k.txHash in ChainAfter(ops) && IsRowOf(k, ChainAfter(ops)[k.txHash].rows)
  {
    TableMirrorsChain(ops);
    var t, c := TableAfter(ops), ChainAfter(ops);
    forall k | k in t
      ensures t[k].blockSlot % TWO_TO_THE_64 == c[k.txHash].point.slot && t[k].blockHash == c[k.txHash].point.hash
    {
      BatchIsOfTx(c[k.txHash].rows, k.txHash, c[k.txHash].point, k);
    }
    forall k | k in t ensures IsRowOf(k, c[k.txHash].rows) { BatchKeys(c[k.txHash].rows, k); }
    MirroredIsKept(t, c);
  }

  lemma {:induction false} MirroredIsKept<L>(t: Table<L>, c: Chain<L>)
    requires Mirrors(t, c)
    ensures forall h, i: nat | h in c && i < |c[h].rows| :: Keeps(t, c[h].rows[i])
  {
    forall h, i: nat | h in c && i < |c[h].rows| ensures Keeps(t, c[h].rows[i]) {
      BatchRow(c[h].rows, h, c[h].point, i);
      BatchIsOfTx(c[h].rows, h, c[h].point, KeyOf(c[h].rows[i]));
      StoredIsKept(t, c[h].rows[i]);
    }
  }

  /** Where a transaction shows up in another block without having been undone, the table keeps
      up exactly when the transaction had no rows: the unique key preserves the old ones. */
  lemma {:induction false} MovedWithoutUndo<L>(
      t: Table<L>, c: Chain<L>, h: Bytes, point: ChainPoint, rows: seq<MatchRow<L>>)
    requires Mirrors(t, c) && h in c && IsBatch(rows, h, point) && c[h].point != point
    ensures Mirrors(InsertAll(t, rows), c[h := Applied(point, rows)]) <==> c[h].rows == []
  {
    if c[h].rows == [] {
      ApplyNew(t, c, h, point, rows);
    } else {
      var k := KeyOf(c[h].rows[0]);
      BatchRow(c[h].rows, h, c[h].point, 0);
      BatchIsOfTx(c[h].rows, h, c[h].point, k);
      InsertAllMerges(t, rows);
      if k in Batch(rows) { BatchIsOfTx(rows, h, point, k); }
      assert InsertAll(t, rows)[k] == t[k];
    }
  }

  /** An undo takes back an apply: a transaction that was new leaves no trace in the table. */
  lemma {:induction false} UndoRevertsApply<L>(t: Table<L>, h: Bytes, point: ChainPoint, rows: seq<MatchRow<L>>)
    requires IsBatch(rows, h, point) && forall k | k in t :: k.txHash != h
    ensures Without(InsertAll(t, rows), h) == t
  {
    InsertAllMerges(t, rows);
    forall k | k in Batch(rows) ensures k.txHash == h { BatchIsOfTx(rows, h, point, k); }
  }
}
