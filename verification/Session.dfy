/** The connect, stream, reconnect loop (bin/tracker/src/main.rs). */
module Session {
  // The server redelivers from the block of the stored cursor; transport is a script of outcomes.

  import opened Base
  import opened Store
  import opened Events
  import B = Backoff

  /** A transaction of the chain from the configured start on: its block and the effect that
      processing its apply event has. */
  datatype ChainTx<+L> = ChainTx(txHash: Bytes, point: ChainPoint, effect: Effect<L>)

  /** Transactions are committed with their own block as cursor. */
  ghost predicate IsChain<L>(chain: seq<ChainTx<L>>) {
    forall i | 0 <= i < |chain| && chain[i].effect.Commit? :: chain[i].effect.point == chain[i].point
  }

  /** The table after an uninterrupted run over the first `n` transactions. */
  function TableOf<L>(chain: seq<ChainTx<L>>, n: nat): Table<L>
    requires n <= |chain|
  {
    if n == 0 then map[]
    else
      var before := TableOf(chain, n - 1);
      if chain[n - 1].effect.Commit? then InsertAll(before, chain[n - 1].effect.rows) else before
  }

  /** Transactions of one block follow each other and carry the same point. */
  ghost predicate InBlocks<L>(chain: seq<ChainTx<L>>) {
    forall i, j, k | 0 <= i <= j <= k < |chain| && chain[i].point.hash == chain[k].point.hash ::
      chain[j].point == chain[i].point
  }

  /** The point of the last of the first `n` transactions that was committed. */
  function CursorOf<L>(chain: seq<ChainTx<L>>, n: nat): Option<ChainPoint>
    requires n <= |chain|
  {
    if n == 0 then None
    else if chain[n - 1].effect.Commit? then Some(chain[n - 1].point)
    else CursorOf(chain, n - 1)
  }

  /** The store holds what the first `n` transactions did, none of which was fatal; the cursor,
      if there is one, is the block of one of them that was committed, and on a chain of blocks
      it is the block of the last one that was. */
  ghost predicate SyncedAt<L>(chain: seq<ChainTx<L>>, table: Table<L>, row: Option<StoredCursor>, n: nat) {
    && n <= |chain|
    && table == TableOf(chain, n)
    && (forall i | 0 <= i < n :: !chain[i].effect.Fail?)
    && (row.Some? ==> exists q :: 0 <= q < n && chain[q].effect.Commit? && row.value == StoredPoint(chain[q].point))
    && (InBlocks(chain) ==> row == StoredOf(CursorOf(chain, n)))
  }

  // ----- what redelivery does

  /** Every row of an applied transaction has its key in the table. */
  lemma {:induction false} KeysStay<L>(chain: seq<ChainTx<L>>, p: nat, n: nat)
    requires p < n <= |chain| && chain[p].effect.Commit?
    ensures forall i | 0 <= i < |chain[p].effect.rows| :: KeyOf(chain[p].effect.rows[i]) in TableOf(chain, n)
  {
    if chain[n - 1].effect.Commit? {
      InsertAllMerges(TableOf(chain, n - 1), chain[n - 1].effect.rows);
    }
    if p < n - 1 {
      KeysStay(chain, p, n - 1);
    } else {
      var rows := chain[p].effect.rows;
      forall i | 0 <= i < |rows| ensures KeyOf(rows[i]) in TableOf(chain, n) {
        BatchKeys(rows, KeyOf(rows[i]));
      }
    }
  }

  /** What is still to be redelivered from `p` on is of the cursor's block, as far as it is
      committed again. */
  ghost predicate CatchesUp<L>(chain: seq<ChainTx<L>>, row: Option<StoredCursor>, p: nat, n: nat)
    requires n <= |chain|
  {
    InBlocks(chain) ==>
      forall i | p <= i < n && chain[i].effect.Commit? :: row == Some(StoredPoint(chain[i].point))
  }

  /** Delivering the transaction at `p` to a store that is synced at `n` keeps it synced: one
      it knows leaves the table alone, the next one advances it. */
  lemma {:induction false} DeliverSyncs<L>(
      chain: seq<ChainTx<L>>, table: Table<L>, row: Option<StoredCursor>, n: nat, p: nat, fault: Option<nat>,
      r: Result<()>,
      tableAfter: Table<L>, rowAfter: Option<StoredCursor>)
    requires IsChain(chain) && SyncedAt(chain, table, row, n) && p <= n && p < |chain|
    requires CatchesUp(chain, row, p, n)
    requires Performed(chain[p].effect, fault, table, row, r, tableAfter, rowAfter)
    ensures SyncedAt(chain, tableAfter, rowAfter, if r.Ok? && p == n then n + 1 else n)
    ensures r.Ok? ==> CatchesUp(chain, rowAfter, p + 1, if p == n then n + 1 else n)
    ensures rowAfter == if r.Ok? && chain[p].effect.Commit? then StoredOf(Some(chain[p].point)) else row
    ensures r.Ok? <==> Failure(chain[p].effect, fault).None?
    ensures r.Err? ==> Failure(chain[p].effect, fault) == Some(r.error)
  {
    hide InBlocks;
    if r.Ok? && p < n && chain[p].effect.Commit? {
      KeysStay(chain, p, n);
      RedeliveryIsIgnored(table, chain[p].effect.rows);
    }
  }

  // ----- the server

  /** The first transaction of a block. */
  ghost predicate FirstOfBlock<L>(chain: seq<ChainTx<L>>, hash: Hash32, p: nat) {
    p < |chain| && chain[p].point.hash == hash && forall i | 0 <= i < p :: chain[i].point.hash != hash
  }

  /** Where a block starts, searching from position `i` on. */
  function BlockStart<L>(chain: seq<ChainTx<L>>, hash: Hash32, i: nat): nat
    requires i <= |chain|
    decreases |chain| - i
  {
    if i == |chain| || chain[i].point.hash == hash then i else BlockStart(chain, hash, i + 1)
  }

  lemma {:induction false} BlockStartIsFirst<L>(chain: seq<ChainTx<L>>, hash: Hash32, i: nat, q: nat)
    requires i <= q < |chain| && chain[q].point.hash == hash
    requires forall j | 0 <= j < i :: chain[j].point.hash != hash
    ensures FirstOfBlock(chain, hash, BlockStart(chain, hash, i)) && BlockStart(chain, hash, i) <= q
    decreases |chain| - i
  {
    if chain[i].point.hash != hash { BlockStartIsFirst(chain, hash, i + 1, q); }
  }

  /** Where a subscription starts: at the first transaction of the intersect block, which is
      identified by its hash, or at the configured start. */
  function Start<L>(chain: seq<ChainTx<L>>, intersect: Option<ChainPoint>): nat {
    match intersect
    case None => 0
    case Some(point) => BlockStart(chain, point.hash, 0)
  }

  method Locate<L>(chain: seq<ChainTx<L>>, intersect: Option<ChainPoint>) returns (p: nat)
    ensures p == Start(chain, intersect)
  {
    if intersect.None? { return 0; }
    for i := 0 to |chain|
      invariant BlockStart(chain, intersect.value.hash, 0) == BlockStart(chain, intersect.value.hash, i)
    {
      if chain[i].point.hash == intersect.value.hash { return i; }
    }
    return |chain|;
  }

  lemma {:induction false} LastCommit<L>(chain: seq<ChainTx<L>>, n: nat) returns (q: nat)
    requires n <= |chain| && CursorOf(chain, n).Some?
    ensures q < n && chain[q].effect.Commit? && CursorOf(chain, n) == Some(chain[q].point)
    ensures forall i | q < i < n :: !chain[i].effect.Commit?
  {
    if chain[n - 1].effect.Commit? { q := n - 1; } else { q := LastCommit(chain, n - 1); }
  }

  lemma {:induction false} NoCursorNoCommit<L>(chain: seq<ChainTx<L>>, n: nat)
    requires n <= |chain| && CursorOf(chain, n).None?
    ensures forall i | 0 <= i < n :: !chain[i].effect.Commit?
  {
    if n > 0 { NoCursorNoCommit(chain, n - 1); }
  }

  /** Resuming at the stored cursor's block skips nothing that was not applied, and what it
      delivers again does not move the cursor off that block. */
  lemma {:induction false} ResumeIsSafe<L>(
      chain: seq<ChainTx<L>>, table: Table<L>, row: Option<StoredCursor>, n: nat, intersect: Option<ChainPoint>)
    requires SyncedAt(chain, table, row, n) && row == StoredOf(intersect)
    ensures n <= |chain| && Start(chain, intersect) <= n
    ensures CatchesUp(chain, row, Start(chain, intersect), n)
  {
    if intersect.None? {
      if InBlocks(chain) { NoCursorNoCommit(chain, n); }
    } else {
      var hash := intersect.value.hash;
      var q: nat :| q < n && chain[q].effect.Commit? && row.value == StoredPoint(chain[q].point);
      CursorRoundTrip(chain[q].point, intersect.value);
      BlockStartIsFirst(chain, hash, 0, q);
      if InBlocks(chain) {
        var l := LastCommit(chain, n);
        CursorRoundTrip(chain[l].point, intersect.value);
        BlockStartIsFirst(chain, hash, 0, l);
        var start := Start(chain, intersect);
        forall i | start <= i < n && chain[i].effect.Commit? ensures row == Some(StoredPoint(chain[i].point)) {
          assert i <= l && chain[start].point.hash == chain[l].point.hash;
        }
      }
    }
  }

  // ----- gRPC codes

  datatype Code =
    | Cancelled | Unknown | InvalidArgument | DeadlineExceeded | NotFound | AlreadyExists | PermissionDenied
    | ResourceExhausted | FailedPrecondition | Aborted | OutOfRange | Unimplemented | Internal | Unavailable
    | DataLoss | Unauthenticated

  predicate IsTransient(code: Code) {
    match code
    case Unknown => true
    case Unavailable => true
    case Aborted => true
    case Cancelled => true
    case DeadlineExceeded => true
    case Internal => true
    case ResourceExhausted => true
    case _ => false
  }

  // ----- sessions

  datatype Connect = Up | Unreachable | Misconfigured

  datatype Subscribe = Accepted | Refused(code: Code)

  /** What the stream yields next. A delivery may fail in the store at any statement; where
      nothing is left to deliver it is an idle message. */
  datatype Message = Deliver(fault: Option<nat>) | Idle | Closed | Broken(code: Code) | Signal

  /** A script that runs out is the process being killed. `signalled` says that the shutdown
      signal arrives while the tracker waits to reconnect. */
  datatype Script = Script(connect: Connect, subscribe: Subscribe, messages: seq<Message>, signalled: bool)

  datatype SessionOutcome = Shutdown | Reconnect | Fatal(error: Error) | Killed

  /** The session yields at least one message. */
  predicate Healthy(s: Script) {
    s.connect.Up? && s.subscribe.Accepted? && s.messages != [] && (s.messages[0].Deliver? || s.messages[0].Idle?)
  }

  /** How a session ends, at which position of the chain and with which cursor stored. */
  datatype SessionEnd = SessionEnd(outcome: SessionOutcome, position: nat, cursor: Option<ChainPoint>)

  /** What a stream comes to, from a position of the chain and a stored cursor. */
  function Plays<L>(
      chain: seq<ChainTx<L>>, messages: seq<Message>, position: nat, cursor: Option<ChainPoint>): SessionEnd {
    if messages == [] then SessionEnd(Killed, position, cursor)
    else
      match messages[0]
      case Signal => SessionEnd(Shutdown, position, cursor)
      case Closed => SessionEnd(Reconnect, position, cursor)
      case Broken(code) => SessionEnd(if IsTransient(code) then Reconnect else Fatal(Rejected), position, cursor)
      case Idle => Plays(chain, messages[1..], position, cursor)
      case Deliver(fault) =>
        if position >= |chain| then Plays(chain, messages[1..], position, cursor)
        else
          var next := chain[position];
          match Failure(next.effect, fault)
          case Some(x) => SessionEnd(Fatal(x), position, cursor)
          case None =>
            Plays(chain, messages[1..], position + 1, if next.effect.Commit? then Some(next.point) else cursor)
  }

  /** What a session comes to that resumes from a cursor. */
  function SessionResult<L>(chain: seq<ChainTx<L>>, cursor: Option<ChainPoint>, s: Script): SessionEnd {
    match s.connect
    case Unreachable => SessionEnd(Reconnect, 0, cursor)
    case Misconfigured => SessionEnd(Fatal(Rejected), 0, cursor)
    case Up =>
      match s.subscribe
      case Refused(code) => SessionEnd(if IsTransient(code) then Reconnect else Fatal(Rejected), 0, cursor)
      case Accepted => Plays(chain, s.messages, Start(chain, cursor), cursor)
  }

  method StreamSession<L>(
      chain: seq<ChainTx<L>>, intersect: Option<ChainPoint>, script: Script, store: Store<L>, backoff: B.Backoff,
      ghost n0: nat)
    returns (outcome: SessionOutcome, position: nat, ghost n: nat)
    requires IsChain(chain) && SyncedAt(chain, store.matches, store.row, n0)
    requires store.row == StoredOf(intersect)
    requires backoff.Valid()
    modifies store, backoff
    ensures var end := SessionResult(chain, intersect, script);
      outcome == end.outcome && position == end.position && store.row == StoredOf(end.cursor)
    ensures SyncedAt(chain, store.matches, store.row, n)
    ensures n == if position > n0 then position else n0
    ensures backoff.Valid()
    ensures outcome.Reconnect? ==> backoff.failures == if Healthy(script) then 0 else old(backoff.failures)
  {
    hide SyncedAt, Performed, Failure, IsTransient, Start, BlockStart, CatchesUp, IsChain, InBlocks;
    n, position := n0, 0;
    match script.connect {
      case Up =>
      case Unreachable => return Reconnect, position, n;
      case Misconfigured => return Fatal(Rejected), position, n;
    }
    if script.subscribe.Refused? {
      outcome := if IsTransient(script.subscribe.code) then Reconnect else Fatal(Rejected);
      return;
    }
    position := Locate(chain, intersect);
    ResumeIsSafe(chain, store.matches, store.row, n, intersect);
    ghost var cursor := intersect;
    ghost var end := Plays(chain, script.messages, position, cursor);
    assert script.messages[0..] == script.messages;
    for i := 0 to |script.messages|
      invariant SyncedAt(chain, store.matches, store.row, n) && n <= |chain|
      invariant CatchesUp(chain, store.row, position, n)
      invariant position <= n && n == if position > n0 then position else n0
      invariant store.row == StoredOf(cursor) && end == Plays(chain, script.messages[i..], position, cursor)
      invariant backoff.Valid() && backoff.failures == if i > 0 then 0 else old(backoff.failures)
      invariant i > 0 ==> Healthy(script)
    {
      assert script.messages[i..][1..] == script.messages[i + 1..];
      match script.messages[i] {
        case Signal => return Shutdown, position, n;
        case Closed => return Reconnect, position, n;
        case Broken(code) =>
          outcome := if IsTransient(code) then Reconnect else Fatal(Rejected);
          return;
        case Idle => backoff.Reset();
        case Deliver(fault) =>
          backoff.Reset();
          if position < |chain| {
            ghost var table, row := store.matches, store.row;
            var r := Perform(chain[position].effect, store, fault);
            DeliverSyncs(chain, table, row, n, position, fault, r, store.matches, store.row);
            if r.Err? { return Fatal(r.error), position, n; }
            cursor := if chain[position].effect.Commit? then Some(chain[position].point) else cursor;
            position := position + 1;
            n := if position > n then position else n;
          }
      }
    }
    return Killed, position, n;
  }

  // ----- progress

  /** A session that is never disturbed and long enough for the whole chain. */
  predicate Undisturbed<L>(chain: seq<ChainTx<L>>, s: Script) {
    s.connect.Up? && s.subscribe.Accepted? && |s.messages| >= |chain| &&
    forall i | 0 <= i < |s.messages| :: s.messages[i] == Deliver(None)
  }

  ghost predicate NoneFatal<L>(chain: seq<ChainTx<L>>) {
    forall i | 0 <= i < |chain| :: !chain[i].effect.Fail?
  }

  lemma {:induction false} PlaysOn<L>(
      chain: seq<ChainTx<L>>, messages: seq<Message>, position: nat, cursor: Option<ChainPoint>)
    requires position <= |chain| && NoneFatal(chain)
    requires forall i | 0 <= i < |messages| :: messages[i] == Deliver(None)
    ensures var end := Plays(chain, messages, position, cursor);
      && end.outcome == Killed
      && end.position == if position + |messages| < |chain| then position + |messages| else |chain|
    decreases |messages|
  {
    if messages != [] {
      if position < |chain| {
        var next := chain[position];
        PlaysOn(chain, messages[1..], position + 1, if next.effect.Commit? then Some(next.point) else cursor);
      } else {
        PlaysOn(chain, messages[1..], position, cursor);
      }
    }
  }

  /** On a chain without fatal transactions such a session reaches the end. */
  lemma {:induction false} UndisturbedReachesEnd<L>(chain: seq<ChainTx<L>>, cursor: Option<ChainPoint>, s: Script)
    requires Undisturbed(chain, s) && NoneFatal(chain)
    ensures var end := SessionResult(chain, cursor, s); end.outcome == Killed && end.position == |chain|
  {
    StartOnChain(chain, cursor);
    PlaysOn(chain, s.messages, Start(chain, cursor), cursor);
  }

  lemma {:induction false} StartOnChain<L>(chain: seq<ChainTx<L>>, intersect: Option<ChainPoint>)
    ensures Start(chain, intersect) <= |chain|
  {
    if intersect.Some? { BlockStartOnChain(chain, intersect.value.hash, 0); }
  }

  lemma {:induction false} BlockStartOnChain<L>(chain: seq<ChainTx<L>>, hash: Hash32, i: nat)
    requires i <= |chain|
    ensures BlockStart(chain, hash, i) <= |chain|
    decreases |chain| - i
  {
    if i < |chain| && chain[i].point.hash != hash { BlockStartOnChain(chain, hash, i + 1); }
  }

  // ----- the reconnect loop

  const INITIAL: B.Duration := B.NANOS_PER_SEC

  const MAX: B.Duration := 30 * B.NANOS_PER_SEC

  /** How many sessions in a row up to the `i`-th yielded nothing, not counting a first one. */
  function Quiet(scripts: seq<Script>, i: nat): nat
    requires i < |scripts|
  {
    if Healthy(scripts[i]) || i == 0 then 0 else Quiet(scripts, i - 1) + 1
  }

  lemma {:induction false} EndOfChain<L>(chain: seq<ChainTx<L>>, table: Table<L>, row: Option<StoredCursor>, n: nat)
    requires SyncedAt(chain, table, row, n)
    ensures n == |chain| ==> table == TableOf(chain, |chain|)
    ensures n == |chain| && InBlocks(chain) ==> row == StoredOf(CursorOf(chain, |chain|))
  {}

  /** The delay after each session is the scheduled one for the quiet sessions up to it. */
  ghost predicate FollowsSchedule(delays: seq<B.Duration>, scripts: seq<Script>, initial: B.Duration, max: B.Duration) {
    |delays| <= |scripts| && forall i | 0 <= i < |delays| :: delays[i] == B.Scheduled(initial, max, Quiet(scripts, i))
  }

  /** How a process ends: `sessions` of them ended in a reconnect. */
  datatype RunEnd = RunEnd(ending: SessionOutcome, position: nat, sessions: nat, cursor: Option<ChainPoint>)

  /** What a process comes to that is at session `i`, with a cursor stored and the position that
      the session before reached: each session resumes from the cursor that the one before left. */
  function RunResult<L>(
      chain: seq<ChainTx<L>>, scripts: seq<Script>, i: nat, position: nat, cursor: Option<ChainPoint>): RunEnd
    requires i <= |scripts|
    decreases |scripts| - i
  {
    if i == |scripts| then RunEnd(Killed, position, i, cursor)
    else
      var end := SessionResult(chain, cursor, scripts[i]);
      if !end.outcome.Reconnect? then RunEnd(end.outcome, end.position, i, end.cursor)
      else if scripts[i].signalled then RunEnd(Shutdown, end.position, i + 1, end.cursor)
      else RunResult(chain, scripts, i + 1, end.position, end.cursor)
  }

  /** How far the chain is applied after the sessions from `i` on, if it was as far as `n`: as
      far as any of them came. */
  function Reached<L>(
      chain: seq<ChainTx<L>>, scripts: seq<Script>, i: nat, n: nat, cursor: Option<ChainPoint>): nat
    requires i <= |scripts|
    decreases |scripts| - i
  {
    if i == |scripts| then n
    else
      var end := SessionResult(chain, cursor, scripts[i]);
      var m := if end.position > n then end.position else n;
      if !end.outcome.Reconnect? || scripts[i].signalled then m
      else Reached(chain, scripts, i + 1, m, end.cursor)
  }

  /** Reading the row that is stored for a synced chain gives back its cursor. */
  lemma {:induction false} CursorReads<L>(chain: seq<ChainTx<L>>, table: Table<L>, row: Option<StoredCursor>, n: nat)
    requires SyncedAt(chain, table, row, n)
    ensures row == StoredOf(PointOf(row))
  {}

  /** The reconnect loop. */
  method RunWith<L>(chain: seq<ChainTx<L>>, scripts: seq<Script>, store: Store<L>, backoff: B.Backoff, ghost n0: nat)
    returns (ending: SessionOutcome, position: nat, delays: seq<B.Duration>, ghost n: nat)
    requires IsChain(chain) && SyncedAt(chain, store.matches, store.row, n0) && backoff.Valid() && backoff.failures == 0
    modifies store, backoff
    ensures SyncedAt(chain, store.matches, store.row, n) && n0 <= n && position <= n
    ensures n == Reached(chain, scripts, 0, n0, PointOf(old(store.row)))
    ensures RunEnd(ending, position, |delays|, PointOf(store.row)) ==
      RunResult(chain, scripts, 0, 0, PointOf(old(store.row)))
    ensures FollowsSchedule(delays, scripts, backoff.initial, backoff.max)
  {
    hide SyncedAt, SessionResult, B.Scheduled, Healthy;
    n, position, delays := n0, 0, [];
    ghost var end := RunResult(chain, scripts, 0, 0, PointOf(store.row));
    ghost var reached := Reached(chain, scripts, 0, n, PointOf(store.row));
    for i := 0 to |scripts|
      invariant SyncedAt(chain, store.matches, store.row, n) && n0 <= n
      invariant position <= n
      invariant end == RunResult(chain, scripts, i, position, PointOf(store.row))
      invariant reached == Reached(chain, scripts, i, n, PointOf(store.row))
      invariant backoff.Valid()
      invariant backoff.failures == if i == 0 then 0 else Quiet(scripts, i - 1) + 1
      invariant |delays| == i && FollowsSchedule(delays, scripts, backoff.initial, backoff.max)
    {
      var intersect := store.Cursor();
      CursorReads(chain, store.matches, store.row, n);
      ending, position, n := StreamSession(chain, intersect, scripts[i], store, backoff, n);
      ReadsBack(SessionResult(chain, intersect, scripts[i]).cursor);
      match ending {
        case Reconnect =>
          var delay := backoff.NextDelay();
          delays := delays + [delay];
          if scripts[i].signalled { return Shutdown, position, delays, n; }
        case _ => return;
      }
    }
    ending := Killed;
  }

  lemma {:induction false} ReadsBack(p: Option<ChainPoint>)
    ensures PointOf(StoredOf(p)) == p
  {
    if p.Some? { CursorRoundTrip(p.value, p.value); }
  }

  /** One process. From a store that is synced with the chain as far as `n0`, whatever the
      sessions do, it is synced afterwards as far as any of them came; so once every
      transaction has been applied the table and the cursor are those of one uninterrupted run,
      however the sessions after that end. */
  method Run<L>(chain: seq<ChainTx<L>>, scripts: seq<Script>, store: Store<L>, ghost n0: nat)
    returns (ending: SessionOutcome, position: nat, delays: seq<B.Duration>)
    requires IsChain(chain) && SyncedAt(chain, store.matches, store.row, n0)
    modifies store
    ensures SyncedAt(chain, store.matches, store.row, Reached(chain, scripts, 0, n0, PointOf(old(store.row))))
    ensures position <= Reached(chain, scripts, 0, n0, PointOf(old(store.row)))
    ensures RunEnd(ending, position, |delays|, PointOf(store.row)) ==
      RunResult(chain, scripts, 0, 0, PointOf(old(store.row)))
    ensures Reached(chain, scripts, 0, n0, PointOf(old(store.row))) == |chain| ==>
      && store.matches == TableOf(chain, |chain|)
      && (InBlocks(chain) ==> store.row == StoredOf(CursorOf(chain, |chain|)))
    ensures FollowsSchedule(delays, scripts, INITIAL, MAX)
  {
    var backoff := new B.Backoff(INITIAL, MAX);
    ghost var n;
    ending, position, delays, n := RunWith(chain, scripts, store, backoff, n0);
    EndOfChain(chain, store.matches, store.row, n);
  }

  /** A session that reaches the end of the chain leaves nothing to do, whatever follows it. */
  lemma {:induction false} ReachedStays<L>(
      chain: seq<ChainTx<L>>, scripts: seq<Script>, i: nat, n: nat, cursor: Option<ChainPoint>)
    requires i <= |scripts|
    ensures n <= Reached(chain, scripts, i, n, cursor)
    ensures i < |scripts| ==>
      SessionResult(chain, cursor, scripts[i]).position <= Reached(chain, scripts, i, n, cursor)
    decreases |scripts| - i
  {
    if i < |scripts| {
      var end := SessionResult(chain, cursor, scripts[i]);
      if end.outcome.Reconnect? && !scripts[i].signalled {
        ReachedStays(chain, scripts, i + 1, if end.position > n then end.position else n, end.cursor);
      }
    }
  }

  /** A process whose sessions all end in a reconnect, the last one excepted, which is not
      disturbed, reaches the end of a chain without fatal transactions. */
  lemma {:induction false} UndisturbedRunReachesEnd<L>(
      chain: seq<ChainTx<L>>, scripts: seq<Script>, i: nat, position: nat, cursor: Option<ChainPoint>)
    requires i < |scripts| && NoneFatal(chain) && Undisturbed(chain, scripts[|scripts| - 1])
    requires RunResult(chain, scripts, i, position, cursor).sessions == |scripts| - 1
    requires !RunResult(chain, scripts, i, position, cursor).ending.Shutdown?
    ensures RunResult(chain, scripts, i, position, cursor).ending == Killed
    ensures RunResult(chain, scripts, i, position, cursor).position == |chain|
    decreases |scripts| - i
  {
    var end := SessionResult(chain, cursor, scripts[i]);
    if i == |scripts| - 1 {
      UndisturbedReachesEnd(chain, cursor, scripts[i]);
    } else if end.outcome.Reconnect? && !scripts[i].signalled {
      UndisturbedRunReachesEnd(chain, scripts, i + 1, end.position, end.cursor);
    }
  }

  // ----- fatal transactions

  /** A fatal transaction is never passed: an undisturbed session stops at it again, wherever it
      resumes. */
  lemma {:induction false} PlaysToFatal<L>(
      chain: seq<ChainTx<L>>, messages: seq<Message>, position: nat, cursor: Option<ChainPoint>, q: nat)
    requires position <= q < |chain| && chain[q].effect.Fail? && |messages| > q - position
    requires forall i | position <= i < q :: !chain[i].effect.Fail?
    requires forall i | 0 <= i < |messages| :: messages[i] == Deliver(None)
    ensures Plays(chain, messages, position, cursor).outcome == Fatal(chain[q].effect.error)
    ensures Plays(chain, messages, position, cursor).position == q
    decreases |messages|
  {
    if position < q {
      var next := chain[position];
      PlaysToFatal(chain, messages[1..], position + 1, if next.effect.Commit? then Some(next.point) else cursor, q);
    }
  }

  /** A store that is synced with a chain is not past its first fatal transaction; and a process
      whose sessions are undisturbed ends there, at every restart. */
  lemma {:induction false} FatalStopsEveryRestart<L>(
      chain: seq<ChainTx<L>>, table: Table<L>, row: Option<StoredCursor>, n: nat, s: Script, q: nat)
    requires SyncedAt(chain, table, row, n) && Undisturbed(chain, s)
    requires q < |chain| && chain[q].effect.Fail? && forall i | 0 <= i < q :: !chain[i].effect.Fail?
    ensures n <= q
    ensures var end := SessionResult(chain, PointOf(row), s);
      end.outcome == Fatal(chain[q].effect.error) && end.position == q
  {
    CursorReads(chain, table, row, n);
    ResumeIsSafe(chain, table, row, n, PointOf(row));
    PlaysToFatal(chain, s.messages, Start(chain, PointOf(row)), PointOf(row), q);
  }
}
