/** The effects of streamed events (`apply_tx` and `undo_tx` in bin/tracker/src/process.rs). */
module Events {
  import opened Base
  import opened Payload
  import opened Process
  import opened Selection
  import opened Store
  import opened StoreLaws

  /** An input as delivered, with the output it resolves to when the server sent it and sent
      its bytes. */
  datatype WatchedInput = WatchedInput(hash: Bytes, index: u32, asOutput: Option<Option<Resolved>>)

  datatype WatchedTx = WatchedTx(hash: Bytes, inputs: seq<WatchedInput>, references: seq<WatchedInput>)

  /** A transaction of a block, and whether it decodes again when encoded on its own. */
  datatype BlockTx = BlockTx(tx: CardanoTx, decodes: bool)

  datatype Block = Block(slot: u64, hash: Hash32, previous: Option<Hash32>, txs: seq<BlockTx>)

  datatype NativeBytes = Empty | Undecodable | Decodable(block: Block)

  /** A streamed transaction; the Cardano part or the block may be missing. */
  datatype AnyChainTx = AnyChainTx(chain: Option<WatchedTx>, block: Option<NativeBytes>)

  datatype Action = Apply(tx: AnyChainTx) | Undo(tx: AnyChainTx) | Idle | NoAction

  // ----- resolved inputs

  predicate Delivers(i: WatchedInput) {
    i.asOutput.Some? && i.asOutput.value.Some?
  }

  function RefOf(i: WatchedInput): UtxoRef {
    UtxoRef(i.hash, i.index)
  }

  function ResolvedOf(ins: seq<WatchedInput>): ResolvedInputs {
    if ins == [] then map[]
    else
      var i := ins[|ins| - 1];
      var before := ResolvedOf(ins[..|ins| - 1]);
      if Delivers(i) then before[RefOf(i) := i.asOutput.value.value] else before
  }

  /** The last delivery of each reference counts, inputs before reference inputs. */
  lemma {:induction false} ResolvedOfMeaning(ins: seq<WatchedInput>, k: UtxoRef)
    ensures k in ResolvedOf(ins) <==> exists i :: 0 <= i < |ins| && Delivers(ins[i]) && RefOf(ins[i]) == k
    ensures forall i | 0 <= i < |ins| && Delivers(ins[i]) && RefOf(ins[i]) == k &&
        (forall j | i < j < |ins| :: !Delivers(ins[j]) || RefOf(ins[j]) != k) ::
      k in ResolvedOf(ins) && ResolvedOf(ins)[k] == ins[i].asOutput.value.value
  {
    if ins != [] {
      var n := |ins| - 1;
      var init := ins[..n];
      ResolvedOfMeaning(init, k);
      assert forall i | 0 <= i < n :: ins[i] == init[i];
      if Delivers(ins[n]) && RefOf(ins[n]) == k {
        assert k in ResolvedOf(ins);
      } else {
        forall i | 0 <= i < |ins| && Delivers(ins[i]) && RefOf(ins[i]) == k
          ensures Delivers(init[i]) && RefOf(init[i]) == k
        {
          assert i < n && init[i] == ins[i];
        }
        if k in ResolvedOf(init) {
          var i :| 0 <= i < n && Delivers(init[i]) && RefOf(init[i]) == k;
          assert ins[i] == init[i];
        }
      }
    }
  }

  method CollectResolvedInputs(tx: WatchedTx) returns (resolved: ResolvedInputs)
    ensures resolved == ResolvedOf(tx.inputs + tx.references)
  {
    var all := tx.inputs + tx.references;
    resolved := map[];
    for i := 0 to |all|
      invariant resolved == ResolvedOf(all[..i])
    {
      assert all[..i + 1][..i] == all[..i];
      if all[i].asOutput.None? { continue; }
      if all[i].asOutput.value.None? { continue; }
      resolved := resolved[UtxoRef(all[i].hash, all[i].index) := all[i].asOutput.value.value];
    }
    assert all[..|all|] == all;
  }

  // ----- the effect of an apply event

  /** What an event does: nothing, a fatal error, or a batch of rows and a new cursor. */
  datatype Effect<+L> = Skip | Fail(error: Error) | Commit(point: ChainPoint, rows: seq<MatchRow<L>>)

  ghost predicate FirstAt(txs: seq<BlockTx>, hash: Bytes, i: nat) {
    i < |txs| && txs[i].tx.hash == hash && forall j | 0 <= j < i :: txs[j].tx.hash != hash
  }

  ghost function PayloadOf(chain: WatchedTx, t: BlockTx): CardanoPayload {
    CardanoPayload(if t.decodes then Some(t.tx) else None, ResolvedOf(chain.inputs + chain.references))
  }

  ghost predicate Ignored(event: AnyChainTx) {
    event.chain.None? || event.block.None? || event.block.value.Empty?
  }

  ghost predicate InBlock(event: AnyChainTx)
    requires !Ignored(event)
  {
    && event.block.value.Decodable?
    && |event.chain.value.hash| == 32
    && exists t | t in event.block.value.block.txs :: t.tx.hash == event.chain.value.hash
  }

  /** An event that is missing its parts is skipped; a block that does not decode or does not
      hold the transaction is fatal; otherwise the rows of the first transaction of that hash
      are committed with the block as cursor, even if there are none. */
  ghost predicate EffectOf(event: AnyChainTx, sources: seq<Source>, mode: MatchMode, e: Effect<Lifting.Lifted>) {
    if Ignored(event) then e == Skip
    else if event.block.value.Undecodable? then e == Fail(PallasDecode)
    else if |event.chain.value.hash| != 32 then e == Fail(BadTxHash)
    else if !InBlock(event) then e == Fail(TxNotInBlock)
    else
      var block := event.block.value.block;
      exists i: nat, r ::
        FirstAt(block.txs, event.chain.value.hash, i) &&
        Outcome(sources, PayloadOf(event.chain.value, block.txs[i]), ChainPoint(block.slot, block.hash), mode, r) &&
        e == match r { case Ok(rows) => Commit(ChainPoint(block.slot, block.hash), rows) case Err(x) => Fail(x) }
  }

  method FindTx(txs: seq<BlockTx>, hash: Bytes) returns (found: Option<nat>)
    ensures found.Some? ==> FirstAt(txs, hash, found.value)
    ensures found.None? ==> forall t | t in txs :: t.tx.hash != hash
  {
    for i := 0 to |txs|
      invariant forall j | 0 <= j < i :: txs[j].tx.hash != hash
    {
      if txs[i].tx.hash == hash { return Some(i); }
    }
    return None;
  }

  method Evaluate(event: AnyChainTx, sources: seq<Source>, mode: MatchMode) returns (e: Effect<Lifting.Lifted>)
    ensures EffectOf(event, sources, mode, e)
  {
    if event.chain.None? { return Skip; }
    if event.block.None? { return Skip; }
    if event.block.value.Empty? { return Skip; }
    if event.block.value.Undecodable? { return Fail(PallasDecode); }
    var chain, block := event.chain.value, event.block.value.block;
    if |chain.hash| != 32 { return Fail(BadTxHash); }
    var found := FindTx(block.txs, chain.hash);
    if found.None? { return Fail(TxNotInBlock); }
    var target := block.txs[found.value];
    assert target in block.txs;
    var resolved := CollectResolvedInputs(chain);
    var payload := CardanoPayload(if target.decodes then Some(target.tx) else None, resolved);
    var rows := RunSpecializations(sources, payload, ChainPoint(block.slot, block.hash), mode);
    assert Outcome(sources, PayloadOf(chain, block.txs[found.value]), ChainPoint(block.slot, block.hash), mode, rows);
    match rows
    case Ok(batch) => e := Commit(ChainPoint(block.slot, block.hash), batch);
    case Err(x) => e := Fail(x);
  }

  /** Why performing an effect fails, if it does: `fault` is the statement at which the store
      gives up, as for `Store.ApplyBlock`. */
  function Failure<L>(e: Effect<L>, fault: Option<nat>): Option<Error> {
    match e
    case Skip => None
    case Fail(x) => Some(x)
    case Commit(_, rows) => if fault.Some? && fault.value <= |rows| + 1 then Some(Storage) else None
  }

  /** What an effect leaves of a table and a cursor: all of it or, where it fails, nothing. */
  ghost predicate Performed<L>(
      e: Effect<L>, fault: Option<nat>, table: Table<L>, row: Option<StoredCursor>, r: Result<()>,
      tableAfter: Table<L>, rowAfter: Option<StoredCursor>)
  {
    match Failure(e, fault)
    case Some(x) => r == Err(x) && tableAfter == table && rowAfter == row
    case None =>
      r.Ok? &&
      if e.Commit? then tableAfter == InsertAll(table, e.rows) && rowAfter == Some(StoredPoint(e.point))
      else tableAfter == table && rowAfter == row
  }

  method Perform<L>(e: Effect<L>, store: Store<L>, fault: Option<nat>) returns (r: Result<()>)
    modifies store
    ensures Performed(e, fault, old(store.matches), old(store.row), r, store.matches, store.row)
  {
    match e
    case Skip => r := Ok(());
    case Fail(x) => r := Err(x);
    case Commit(point, rows) =>
      var inserted := store.ApplyBlock(point, rows, fault);
      r := if inserted.Ok? then Ok(()) else Err(inserted.error);
  }

  method ApplyTx(
      event: AnyChainTx, sources: seq<Source>, store: Store<Lifting.Lifted>, mode: MatchMode, fault: Option<nat>)
    returns (r: Result<()>, ghost e: Effect<Lifting.Lifted>)
    modifies store
    ensures EffectOf(event, sources, mode, e)
    ensures Performed(e, fault, old(store.matches), old(store.row), r, store.matches, store.row)
  {
    var effect := Evaluate(event, sources, mode);
    e := effect;
    r := Perform(effect, store, fault);
  }

  // ----- the effect of an undo event

  /** One slot before the block, with the hash of its parent; none where the block is missing,
      does not decode or has no parent. */
  function ParentOf(block: Option<NativeBytes>): Option<ChainPoint> {
    if block.Some? && block.value.Decodable? && block.value.block.previous.Some? then
      Some(ChainPoint(SaturatingSub(block.value.block.slot, 1), block.value.block.previous.value))
    else None
  }

  /** What an undo leaves of a table and a cursor: an event without its transaction is skipped,
      and where a statement of the store fails nothing changes. */
  ghost predicate Undone<L>(
      event: AnyChainTx, fault: Option<nat>, table: Table<L>, row: Option<StoredCursor>, r: Result<()>,
      tableAfter: Table<L>, rowAfter: Option<StoredCursor>)
  {
    if event.chain.None? then r.Ok? && tableAfter == table && rowAfter == row
    else if fault.Some? && fault.value <= 2 then r == Err(Storage) && tableAfter == table && rowAfter == row
    else
      && r.Ok?
      && tableAfter == Without(table, event.chain.value.hash)
      && rowAfter == StoredOf(ParentOf(event.block))
  }

  method UndoTx<L>(event: AnyChainTx, store: Store<L>, fault: Option<nat>) returns (r: Result<()>)
    modifies store
    ensures Undone(event, fault, old(store.matches), old(store.row), r, store.matches, store.row)
  {
    if event.chain.None? { return Ok(()); }
    var parent: Option<ChainPoint> := None;
    if event.block.Some? && event.block.value.Decodable? {
      var block := event.block.value.block;
      if block.previous.Some? {
        parent := Some(ChainPoint(SaturatingSub(block.slot, 1), block.previous.value));
      }
    }
    var deleted := store.UndoTx(event.chain.value.hash, parent, fault);
    r := if deleted.Ok? then Ok(()) else Err(deleted.error);
  }
}
