/** The tracker over a stream of events: which rows the table holds after any number of
    applied, redelivered and undone transactions, what one message and the message loop do to
    the store, and where an undo leaves the cursor. */
module EventLaws {
  import opened Base
  import opened Process
  import opened Selection
  import opened Store
  import opened Events
  import opened StoreLaws
  import Lifting
  import ProcessLaws
  import RowLaws

  type Effected = Effect<Lifting.Lifted>

  // ----- one event

  lemma {:induction false} FirstAtUnique(txs: seq<BlockTx>, hash: Bytes, i: nat, j: nat)
    requires FirstAt(txs, hash, i) && FirstAt(txs, hash, j)
    ensures i == j
  {}

  /** The effect of an event is a function of the configuration and the event: delivering it
      again computes the same rows. */
  lemma {:induction false} EffectUnique(
      event: AnyChainTx, sources: seq<Source>, mode: MatchMode, e: Effected, f: Effected)
    requires EffectOf(event, sources, mode, e) && EffectOf(event, sources, mode, f)
    ensures e == f
  {
    hide Outcome, PayloadOf;
    if !Ignored(event) && InBlock(event) {
      var block, hash := event.block.value.block, event.chain.value.hash;
      var point := ChainPoint(block.slot, block.hash);
      var i: nat, r :| FirstAt(block.txs, hash, i) &&
        Outcome(sources, PayloadOf(event.chain.value, block.txs[i]), point, mode, r) &&
        e == match r { case Ok(rows) => Commit(point, rows) case Err(x) => Fail(x) };
      var j: nat, s :| FirstAt(block.txs, hash, j) &&
        Outcome(sources, PayloadOf(event.chain.value, block.txs[j]), point, mode, s) &&
        f == match s { case Ok(rows) => Commit(point, rows) case Err(x) => Fail(x) };
      FirstAtUnique(block.txs, hash, i, j);
      ProcessLaws.OutcomeUnique(sources, PayloadOf(event.chain.value, block.txs[i]), point, mode, r, s);
    }
  }

  /** What is committed is a batch of the event's own transaction in the event's own block. */
  lemma {:induction false} CommitIsBatch(
      event: AnyChainTx, sources: seq<Source>, mode: MatchMode, point: ChainPoint, rows: seq<Row>)
    requires EffectOf(event, sources, mode, Commit(point, rows))
    ensures !Ignored(event) && InBlock(event)
    ensures point == ChainPoint(event.block.value.block.slot, event.block.value.block.hash)
    ensures IsBatch(rows, event.chain.value.hash, point)
  {
    hide Outcome;
    var block := event.block.value.block;
    var i: nat, r :| FirstAt(block.txs, event.chain.value.hash, i) &&
      Outcome(sources, PayloadOf(event.chain.value, block.txs[i]), ChainPoint(block.slot, block.hash), mode, r) &&
      Commit(point, rows) ==
        match r { case Ok(batch) => Commit(ChainPoint(block.slot, block.hash), batch) case Err(x) => Fail(x) };
    ProcessLaws.RowsAreABatch(sources, PayloadOf(event.chain.value, block.txs[i]), point, mode, rows);
  }

  // ----- streams of events

  /** The store operation of an action, if it has one; none where the action is fatal. */
  ghost predicate OpOf(action: Action, sources: seq<Source>, mode: MatchMode, op: Option<Op<Lifting.Lifted>>) {
    match action
    case Apply(event) =>
      exists e :: EffectOf(event, sources, mode, e) && !e.Fail? &&
        op == match e { case Commit(point, rows) => Some(Op.Apply(event.chain.value.hash, point, rows)) case _ => None }
    case Undo(event) =>
      op == if event.chain.Some? then Some(Op.Undo(event.chain.value.hash, ParentOf(event.block))) else None
    case Idle => op == None
    case NoAction => op == None
  }

  function Somes<T>(ops: seq<Option<T>>): seq<T> {
    if ops == [] then []
    else Somes(ops[..|ops| - 1]) + if ops[|ops| - 1].Some? then [ops[|ops| - 1].value] else []
  }

  ghost predicate OpsOf(
      actions: seq<Action>, sources: seq<Source>, mode: MatchMode, ops: seq<Option<Op<Lifting.Lifted>>>) {
    |ops| == |actions| && forall i | 0 <= i < |actions| :: OpOf(actions[i], sources, mode, ops[i])
  }

  ghost predicate FailsWith(action: Action, sources: seq<Source>, mode: MatchMode, fault: Option<nat>, x: Error) {
    match action
    case Apply(event) => exists e :: EffectOf(event, sources, mode, e) && Failure(e, fault) == Some(x)
    case Undo(event) => event.chain.Some? && fault.Some? && fault.value <= 2 && x == Storage
    case Idle => false
    case NoAction => false
  }

  /** What the message loop does with one message. */
  method Handle(action: Action, sources: seq<Source>, mode: MatchMode, store: Store<Lifting.Lifted>, fault: Option<nat>)
    returns (r: Result<()>, ghost op: Option<Op<Lifting.Lifted>>)
    modifies store
    ensures r.Err? ==> FailsWith(action, sources, mode, fault, r.error)
    ensures r.Err? ==> store.matches == old(store.matches) && store.row == old(store.row)
    ensures r.Ok? ==> OpOf(action, sources, mode, op)
    ensures r.Ok? ==> store.matches == if op.Some? then TableStep(old(store.matches), op.value) else old(store.matches)
    ensures r.Ok? ==> store.row == if op.Some? then CursorStep(op.value) else old(store.row)
  {
    hide EffectOf;
    r, op := Ok(()), None;
    match action {
      case Apply(event) =>
        ghost var e;
        r, e := ApplyTx(event, sources, store, mode, fault);
        if r.Ok? && e.Commit? {
          EffectHasChain(event, sources, mode, e);
          op := Some(Op.Apply(event.chain.value.hash, e.point, e.rows));
        }
      case Undo(event) =>
        r := UndoTx(event, store, fault);
        if event.chain.Some? { op := Some(Op.Undo(event.chain.value.hash, ParentOf(event.block))); }
      case Idle =>
      case NoAction =>
    }
  }

  /** The message loop of a healthy session, on a store that the messages of earlier sessions
      were handled on. It stops at the first fatal event or store failure; the store then holds
      what all the messages before it did. */
  method Consume(
      actions: seq<Action>, sources: seq<Source>, mode: MatchMode, store: Store<Lifting.Lifted>,
      faults: seq<Option<nat>>, ghost past: seq<Action>, ghost pastOps: seq<Option<Op<Lifting.Lifted>>>)
    returns (r: Result<()>, handled: nat, ghost ops: seq<Option<Op<Lifting.Lifted>>>)
    requires |faults| == |actions|
    requires OpsOf(past, sources, mode, pastOps)
    requires store.matches == TableAfter(Somes(pastOps)) && store.row == CursorAfter(Somes(pastOps))
    modifies store
    ensures handled <= |actions| && (r.Ok? ==> handled == |actions|)
    ensures r.Err? ==> handled < |actions| && FailsWith(actions[handled], sources, mode, faults[handled], r.error)
    ensures pastOps <= ops && OpsOf(past + actions[..handled], sources, mode, ops)
    ensures store.matches == TableAfter(Somes(ops)) && store.row == CursorAfter(Somes(ops))
  {
    handled, ops := 0, pastOps;
    assert past + actions[..0] == past;
    hide *;
    while handled < |actions|
      invariant handled <= |actions| && pastOps <= ops
      invariant OpsOf(past + actions[..handled], sources, mode, ops)
      invariant store.matches == TableAfter(Somes(ops)) && store.row == CursorAfter(Somes(ops))
    {
      ghost var op;
      r, op := Handle(actions[handled], sources, mode, store, faults[handled]);
      if r.Err? { return; }
      OpsStep(past + actions[..handled], actions[handled], sources, mode, ops, op);
      OneMore(past, actions, handled);
      ops := ops + [op];
      handled := handled + 1;
    }
    r := Ok(());
  }

  lemma {:induction false} OneMore<T>(past: seq<T>, items: seq<T>, n: nat)
    requires n < |items|
    ensures past + items[..n + 1] == past + items[..n] + [items[n]]
  {
    assert items[..n + 1] == items[..n] + [items[n]];
  }

  /** Before any message there is nothing: a fresh store is one to start from. */
  lemma {:induction false} NothingHandled(sources: seq<Source>, mode: MatchMode)
    ensures OpsOf([], sources, mode, [])
    ensures TableAfter<Lifting.Lifted>(Somes([])) == map[] && CursorAfter<Lifting.Lifted>(Somes([])) == None
  {}

  lemma {:induction false} EffectHasChain(event: AnyChainTx, sources: seq<Source>, mode: MatchMode, e: Effected)
    requires EffectOf(event, sources, mode, e) && e.Commit?
    ensures event.chain.Some?
  {}

  lemma {:induction false} OpsStep(
      actions: seq<Action>, action: Action, sources: seq<Source>, mode: MatchMode,
      ops: seq<Option<Op<Lifting.Lifted>>>, op: Option<Op<Lifting.Lifted>>)
    requires OpsOf(actions, sources, mode, ops) && OpOf(action, sources, mode, op)
    ensures OpsOf(actions + [action], sources, mode, ops + [op])
    ensures TableAfter(Somes(ops + [op])) ==
      if op.Some? then TableStep(TableAfter(Somes(ops)), op.value) else TableAfter(Somes(ops))
    ensures CursorAfter(Somes(ops + [op])) == if op.Some? then CursorStep(op.value) else CursorAfter(Somes(ops))
  {
    hide OpOf;
    SomesStep(ops, op);
  }

  // ----- the table is the chain's

  /** The events that put transactions on the chain, and were not undone since. */
  ghost function OnChain(actions: seq<Action>): map<Bytes, AnyChainTx> {
    if actions == [] then map[] else OnChainStep(OnChain(actions[..|actions| - 1]), actions[|actions| - 1])
  }

  ghost function OnChainStep(before: map<Bytes, AnyChainTx>, action: Action): map<Bytes, AnyChainTx> {
    match action
    case Apply(event) => if Ignored(event) then before else before[event.chain.value.hash := event]
    case Undo(event) => if event.chain.None? then before else before - {event.chain.value.hash}
    case Idle => before
    case NoAction => before
  }

  /** A transaction that is on the chain is only delivered again as it was delivered before. */
  ghost predicate Redelivers(before: map<Bytes, AnyChainTx>, action: Action) {
    action.Apply? && !Ignored(action.tx) && action.tx.chain.value.hash in before ==>
      before[action.tx.chain.value.hash] == action.tx
  }

  ghost predicate OrderlyStream(actions: seq<Action>) {
    forall i | 0 <= i < |actions| :: Redelivers(OnChain(actions[..i]), actions[i])
  }

  /** The chain the store laws speak of is the one the events describe. */
  ghost predicate Describes(
      events: map<Bytes, AnyChainTx>, sources: seq<Source>, mode: MatchMode, c: Chain<Lifting.Lifted>) {
    && c.Keys == events.Keys
    && forall h | h in events ::
      && !Ignored(events[h]) && events[h].chain.value.hash == h
      && EffectOf(events[h], sources, mode, Commit(c[h].point, c[h].rows))
  }

  /** After every orderly stream the table holds exactly the rows that the events now on the
      chain produce, each row once and with the slot and hash of its event's block. */
  lemma {:induction false} TableIsOfEventsOnChain(
      actions: seq<Action>, sources: seq<Source>, mode: MatchMode, ops: seq<Option<Op<Lifting.Lifted>>>)
    requires OrderlyStream(actions) && OpsOf(actions, sources, mode, ops)
    ensures Describes(OnChain(actions), sources, mode, ChainAfter(Somes(ops)))
    ensures Mirrors(TableAfter(Somes(ops)), ChainAfter(Somes(ops)))
    ensures forall h, i: nat | h in ChainAfter(Somes(ops)) && i < |ChainAfter(Somes(ops))[h].rows| ::
      Keeps(TableAfter(Somes(ops)), ChainAfter(Somes(ops))[h].rows[i])
  {
    StreamMirrors(actions, sources, mode, ops);
    hide *;
    MirroredIsKept(TableAfter(Somes(ops)), ChainAfter(Somes(ops)));
  }

  lemma {:induction false} StreamMirrors(
      actions: seq<Action>, sources: seq<Source>, mode: MatchMode, ops: seq<Option<Op<Lifting.Lifted>>>)
    requires OrderlyStream(actions) && OpsOf(actions, sources, mode, ops)
    ensures Describes(OnChain(actions), sources, mode, ChainAfter(Somes(ops)))
    ensures Mirrors(TableAfter(Somes(ops)), ChainAfter(Somes(ops)))
  {
    if actions == [] {
    } else {
      var n := |actions| - 1;
      StreamPrefix(actions, sources, mode, ops);
      hide *;
      StreamMirrors(actions[..n], sources, mode, ops[..n]);
      SomesStep(ops[..n], ops[n]);
      StreamStep(OnChain(actions[..n]), sources, mode, Somes(ops[..n]), actions[n], ops[n]);
    }
  }

  lemma {:induction false} StreamPrefix(
      actions: seq<Action>, sources: seq<Source>, mode: MatchMode, ops: seq<Option<Op<Lifting.Lifted>>>)
    requires actions != [] && OrderlyStream(actions) && OpsOf(actions, sources, mode, ops)
    ensures var n := |actions| - 1;
      && |ops| == |actions|
      && OrderlyStream(actions[..n]) && OpsOf(actions[..n], sources, mode, ops[..n])
      && Redelivers(OnChain(actions[..n]), actions[n]) && OpOf(actions[n], sources, mode, ops[n])
      && ops == ops[..n] + [ops[n]]
      && OnChain(actions) == OnChainStep(OnChain(actions[..n]), actions[n])
  {
    hide OpOf, Redelivers, OnChainStep;
    var n := |actions| - 1;
    forall i | 0 <= i < n ensures Redelivers(OnChain(actions[..n][..i]), actions[..n][i]) {
      assert actions[..n][..i] == actions[..i];
    }
  }

  lemma {:induction false} StreamStep(
      events: map<Bytes, AnyChainTx>, sources: seq<Source>, mode: MatchMode, ops: seq<Op<Lifting.Lifted>>,
      action: Action, op: Option<Op<Lifting.Lifted>>)
    requires Describes(events, sources, mode, ChainAfter(ops)) && Mirrors(TableAfter(ops), ChainAfter(ops))
    requires Redelivers(events, action) && OpOf(action, sources, mode, op)
    ensures Describes(OnChainStep(events, action), sources, mode,
                      if op.Some? then ChainStep(ChainAfter(ops), op.value) else ChainAfter(ops))
    ensures op.Some? ==> Mirrors(TableStep(TableAfter(ops), op.value), ChainStep(ChainAfter(ops), op.value))
  {
    if op.None? {
      NothingHappens(events, sources, mode, action);
    } else if action.Apply? {
      ApplyHappens(events, sources, mode, ops, action, op.value);
    } else {
      UndoHappens(events, sources, mode, ops, action, op.value);
    }
  }

  lemma {:induction false} SomesStep(ops: seq<Option<Op<Lifting.Lifted>>>, op: Option<Op<Lifting.Lifted>>)
    ensures Somes(ops + [op]) == Somes(ops) + if op.Some? then [op.value] else []
    ensures ChainAfter(Somes(ops + [op])) ==
      if op.Some? then ChainStep(ChainAfter(Somes(ops)), op.value) else ChainAfter(Somes(ops))
    ensures TableAfter(Somes(ops + [op])) ==
      if op.Some? then TableStep(TableAfter(Somes(ops)), op.value) else TableAfter(Somes(ops))
  {
    assert (ops + [op])[..|ops|] == ops;
    if op.Some? {
      assert Somes(ops + [op]) == Somes(ops) + [op.value];
      assert (Somes(ops) + [op.value])[..|Somes(ops)|] == Somes(ops);
    } else {
      assert Somes(ops + [op]) == Somes(ops) + [] == Somes(ops);
    }
  }

  lemma {:induction false} NothingHappens(
      before: map<Bytes, AnyChainTx>, sources: seq<Source>, mode: MatchMode, action: Action)
    requires OpOf(action, sources, mode, None)
    ensures OnChainStep(before, action) == before
  {
    if action.Apply? {
      var e :| EffectOf(action.tx, sources, mode, e) && !e.Fail? && !e.Commit?;
    }
  }

  lemma {:induction false} ApplyHappens(
      before: map<Bytes, AnyChainTx>, sources: seq<Source>, mode: MatchMode, ops: seq<Op<Lifting.Lifted>>,
      action: Action, op: Op<Lifting.Lifted>)
    requires Describes(before, sources, mode, ChainAfter(ops)) && Mirrors(TableAfter(ops), ChainAfter(ops))
    requires action.Apply? && Redelivers(before, action) && OpOf(action, sources, mode, Some(op))
    ensures Describes(OnChainStep(before, action), sources, mode, ChainStep(ChainAfter(ops), op))
    ensures Mirrors(TableStep(TableAfter(ops), op), ChainStep(ChainAfter(ops), op))
  {
    var e :|
      EffectOf(action.tx, sources, mode, e) && e.Commit? && op == Op.Apply(action.tx.chain.value.hash, e.point, e.rows);
    CommitIsBatch(action.tx, sources, mode, e.point, e.rows);
    RedeliveredAlike(before, sources, mode, ChainAfter(ops), action.tx, e);
    DescribesMore(before, sources, mode, ChainAfter(ops), action.tx, e.point, e.rows);
    StepMirrors(TableAfter(ops), ChainAfter(ops), op);
  }

  lemma {:induction false} DescribesMore(
      before: map<Bytes, AnyChainTx>, sources: seq<Source>, mode: MatchMode, c: Chain<Lifting.Lifted>,
      event: AnyChainTx,
      point: ChainPoint, rows: seq<Row>)
    requires Describes(before, sources, mode, c)
    requires !Ignored(event) && EffectOf(event, sources, mode, Commit(point, rows))
    ensures Describes(before[event.chain.value.hash := event], sources, mode,
                      c[event.chain.value.hash := Applied(point, rows)])
  {
    hide EffectOf;
    var h := event.chain.value.hash;
    var next, d := before[h := event], c[h := Applied(point, rows)];
    assert d.Keys == next.Keys;
    forall g | g in next
      ensures !Ignored(next[g]) && next[g].chain.value.hash == g
      ensures EffectOf(next[g], sources, mode, Commit(d[g].point, d[g].rows))
    {
      if g != h { assert next[g] == before[g] && d[g] == c[g]; }
    }
  }

  lemma {:induction false} RedeliveredAlike(
      before: map<Bytes, AnyChainTx>, sources: seq<Source>, mode: MatchMode, c: Chain<Lifting.Lifted>,
      event: AnyChainTx, e: Effected)
    requires Describes(before, sources, mode, c) && Redelivers(before, Action.Apply(event))
    requires !Ignored(event) && EffectOf(event, sources, mode, e) && e.Commit?
    ensures event.chain.value.hash in c ==> c[event.chain.value.hash] == Applied(e.point, e.rows)
  {
    var h := event.chain.value.hash;
    if h in c {
      EffectUnique(event, sources, mode, e, Commit(c[h].point, c[h].rows));
    }
  }

  lemma {:induction false} UndoHappens(
      before: map<Bytes, AnyChainTx>, sources: seq<Source>, mode: MatchMode, ops: seq<Op<Lifting.Lifted>>,
      action: Action, op: Op<Lifting.Lifted>)
    requires Describes(before, sources, mode, ChainAfter(ops)) && Mirrors(TableAfter(ops), ChainAfter(ops))
    requires action.Undo? && OpOf(action, sources, mode, Some(op))
    ensures Describes(OnChainStep(before, action), sources, mode, ChainStep(ChainAfter(ops), op))
    ensures Mirrors(TableStep(TableAfter(ops), op), ChainStep(ChainAfter(ops), op))
  {
    DescribesLess(before, sources, mode, ChainAfter(ops), action.tx.chain.value.hash);
    StepMirrors(TableAfter(ops), ChainAfter(ops), op);
  }

  lemma {:induction false} DescribesLess(
      before: map<Bytes, AnyChainTx>, sources: seq<Source>, mode: MatchMode, c: Chain<Lifting.Lifted>, h: Bytes)
    requires Describes(before, sources, mode, c)
    ensures Describes(before - {h}, sources, mode, map x | x in c && x != h :: c[x])
  {
    hide EffectOf;
    var next, d := before - {h}, map x | x in c && x != h :: c[x];
    assert d.Keys == next.Keys;
    forall g | g in next
      ensures !Ignored(next[g]) && next[g].chain.value.hash == g
      ensures EffectOf(next[g], sources, mode, Commit(d[g].point, d[g].rows))
    {
      assert next[g] == before[g] && d[g] == c[g];
    }
  }

  // ----- the cursor after an undo

  /** An undo that the store performs leaves the cursor at a given parent if and only if the
      event carries a block that decodes, names that parent by its hash, and comes exactly one
      slot after it (or is in slot zero like it). An event without its transaction leaves the
      cursor as it is. */
  lemma {:induction false} UndoReachesParentExactly<L>(
      event: AnyChainTx, fault: Option<nat>, table: Table<L>, row: Option<StoredCursor>, r: Result<()>,
      tableAfter: Table<L>, rowAfter: Option<StoredCursor>, parent: ChainPoint)
    requires Undone(event, fault, table, row, r, tableAfter, rowAfter) && r.Ok?
    ensures rowAfter == StoredOf(Some(parent)) <==>
      if event.chain.None? then row == StoredOf(Some(parent))
      else
        && event.block.Some? && event.block.value.Decodable?
        && event.block.value.block.previous == Some(parent.hash)
        && (event.block.value.block.slot == parent.slot + 1 || event.block.value.block.slot == parent.slot == 0)
  {
    if ParentOf(event.block).Some? { CursorRoundTrip(ParentOf(event.block).value, parent); }
  }

  /** It clears the cursor if and only if there is no block, or none that decodes and has a
      parent. */
  lemma {:induction false} UndoClearsExactly<L>(
      event: AnyChainTx, fault: Option<nat>, table: Table<L>, row: Option<StoredCursor>, r: Result<()>,
      tableAfter: Table<L>, rowAfter: Option<StoredCursor>)
    requires Undone(event, fault, table, row, r, tableAfter, rowAfter) && r.Ok?
    ensures rowAfter == None <==>
      if event.chain.None? then row == None
      else event.block.None? || !event.block.value.Decodable? || event.block.value.block.previous.None?
  {}

  // ----- fatal events

  /** `x` is what the tracker stops with at an event. */
  ghost predicate StopsWith(event: AnyChainTx, sources: seq<Source>, mode: MatchMode, x: Error) {
    if Ignored(event) then false
    else if event.block.value.Undecodable? then x == PallasDecode
    else if |event.chain.value.hash| != 32 then x == BadTxHash
    else if !InBlock(event) then x == TxNotInBlock
    else
      exists i: nat ::
        FirstAt(event.block.value.block.txs, event.chain.value.hash, i) &&
        RowLaws.Stumbles(sources, PayloadOf(event.chain.value, event.block.value.block.txs[i]), mode, x)
  }

  /** An event that is not ignored is fatal exactly where its block does not decode or does not
      hold its transaction, the transaction does not decode, or a survivor does not lift. */
  lemma {:induction false} FatalExactly(
      event: AnyChainTx, sources: seq<Source>, mode: MatchMode, e: Effected, x: Error)
    requires EffectOf(event, sources, mode, e)
    ensures e == Fail(x) <==> StopsWith(event, sources, mode, x)
  {
    hide Outcome, PayloadOf, RowLaws.Stumbles;
    if !Ignored(event) && InBlock(event) {
      var block, hash := event.block.value.block, event.chain.value.hash;
      var point := ChainPoint(block.slot, block.hash);
      var i: nat, r :| FirstAt(block.txs, hash, i) &&
        Outcome(sources, PayloadOf(event.chain.value, block.txs[i]), point, mode, r) &&
        e == match r { case Ok(rows) => Commit(point, rows) case Err(y) => Fail(y) };
      RowLaws.OutcomeFailsExactly(sources, PayloadOf(event.chain.value, block.txs[i]), point, mode, r, x);
      forall j: nat | FirstAt(block.txs, hash, j) ensures i == j { FirstAtUnique(block.txs, hash, i, j); }
    }
  }
}
