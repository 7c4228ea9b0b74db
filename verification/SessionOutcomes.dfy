/** How sessions end, and which of them are followed by another. */
module SessionOutcomes {
  import opened Base
  import opened Store
  import opened Session
  import B = Backoff

  /** The codes after which the tracker connects again: interruptions of the transport. */
  const RETRIED: set<Code> :=
    {Unknown, Unavailable, Aborted, Cancelled, DeadlineExceeded, Internal, ResourceExhausted}

  lemma {:induction false} TransientCodes(c: Code)
    ensures IsTransient(c) <==> c in RETRIED
  {}

  // ----- a stream

  /** Where the chain is delivered from before message `k`. */
  function PositionAt<L>(chain: seq<ChainTx<L>>, messages: seq<Message>, position: nat, k: nat): nat
    requires k <= |messages|
  {
    if k == 0 then position
    else
      var p := PositionAt(chain, messages, position, k - 1);
      if messages[k - 1].Deliver? && p < |chain| then p + 1 else p
  }

  /** The delivery at `p` succeeds: it is not fatal, and the store takes it. */
  predicate Goes<L>(chain: seq<ChainTx<L>>, p: nat, fault: Option<nat>) {
    p < |chain| ==>
      match chain[p].effect
      case Skip => true
      case Fail(_) => false
      case Commit(_, rows) => fault.None? || fault.value > |rows| + 1
  }

  predicate Passes<L>(chain: seq<ChainTx<L>>, messages: seq<Message>, position: nat, k: nat)
    requires k < |messages|
  {
    match messages[k]
    case Idle => true
    case Deliver(fault) => Goes(chain, PositionAt(chain, messages, position, k), fault)
    case _ => false
  }

  /** The first `i` messages come and go; the next one, if there is one, does not. */
  ghost predicate EndsAt<L>(chain: seq<ChainTx<L>>, messages: seq<Message>, position: nat, i: nat) {
    && i <= |messages|
    && (forall k | 0 <= k < i :: Passes(chain, messages, position, k))
    && (i < |messages| ==> !Passes(chain, messages, position, i))
  }

  lemma {:induction false} EndExists<L>(chain: seq<ChainTx<L>>, messages: seq<Message>, position: nat, i: nat)
    returns (e: nat)
    requires i <= |messages| && forall k | 0 <= k < i :: Passes(chain, messages, position, k)
    ensures EndsAt(chain, messages, position, e)
    decreases |messages| - i
  {
    if i < |messages| && Passes(chain, messages, position, i) {
      e := EndExists(chain, messages, position, i + 1);
    } else {
      e := i;
    }
  }

  lemma {:induction false} OneEnd<L>(chain: seq<ChainTx<L>>, messages: seq<Message>, position: nat, i: nat, j: nat)
    requires EndsAt(chain, messages, position, i) && EndsAt(chain, messages, position, j)
    ensures i == j
  {}

  /** Messages that come and go only move the stream on. */
  lemma {:induction false} PlaysPast<L>(
      chain: seq<ChainTx<L>>, messages: seq<Message>, position: nat, cursor: Option<ChainPoint>, i: nat)
    returns (next: Option<ChainPoint>)
    requires i <= |messages| && forall k | 0 <= k < i :: Passes(chain, messages, position, k)
    ensures Plays(chain, messages, position, cursor) ==
      Plays(chain, messages[i..], PositionAt(chain, messages, position, i), next)
  {
    if i == 0 {
      next := cursor;
      assert messages[0..] == messages;
    } else {
      var p := PositionAt(chain, messages, position, i - 1);
      next := PlaysPast(chain, messages, position, cursor, i - 1);
      assert messages[i - 1..][1..] == messages[i..] && messages[i - 1..][0] == messages[i - 1];
      assert Passes(chain, messages, position, i - 1);
      if messages[i - 1].Deliver? && p < |chain| && chain[p].effect.Commit? { next := Some(chain[p].point); }
    }
  }

  /** What a stream ends in, by the message that does not come and go. */
  lemma {:induction false} StreamEnds<L>(
      chain: seq<ChainTx<L>>, messages: seq<Message>, position: nat, cursor: Option<ChainPoint>, i: nat)
    requires EndsAt(chain, messages, position, i)
    ensures var end, p := Plays(chain, messages, position, cursor), PositionAt(chain, messages, position, i);
      && end.position == p
      && end.outcome ==
         if i == |messages| then Killed
         else
           match messages[i]
           case Signal => Shutdown
           case Closed => Reconnect
           case Broken(code) => if code in RETRIED then Reconnect else Fatal(Rejected)
           case Idle => Killed
           case Deliver(_) => Fatal(if chain[p].effect.Fail? then chain[p].effect.error else Storage)
  {
    var next := PlaysPast(chain, messages, position, cursor, i);
    if i < |messages| {
      assert messages[i..][0] == messages[i];
      if messages[i].Broken? { TransientCodes(messages[i].code); }
    }
  }

  // ----- a session

  /** The session ends in another attempt, told from its script and the chain. */
  ghost predicate Interrupted<L>(chain: seq<ChainTx<L>>, cursor: Option<ChainPoint>, s: Script) {
    match s.connect
    case Unreachable => true
    case Misconfigured => false
    case Up =>
      match s.subscribe
      case Refused(code) => code in RETRIED
      case Accepted =>
        exists i: nat :: EndsAt(chain, s.messages, Start(chain, cursor), i) && i < |s.messages| &&
          (s.messages[i].Closed? || (s.messages[i].Broken? && s.messages[i].code in RETRIED))
  }

  /** A session ends in another attempt exactly where the server cannot be reached, or refuses
      the subscription or breaks the stream with one of the seven codes, or closes the stream,
      and nothing went wrong before that. */
  lemma {:induction false} ReconnectsExactly<L>(chain: seq<ChainTx<L>>, cursor: Option<ChainPoint>, s: Script)
    ensures SessionResult(chain, cursor, s).outcome == Reconnect <==> Interrupted(chain, cursor, s)
  {
    if s.connect.Up? {
      if s.subscribe.Refused? {
        TransientCodes(s.subscribe.code);
      } else {
        var start := Start(chain, cursor);
        var e := EndExists(chain, s.messages, start, 0);
        StreamEnds(chain, s.messages, start, cursor, e);
        hide EndsAt, Plays, Start;
        forall i: nat | EndsAt(chain, s.messages, start, i) ensures i == e {
          OneEnd(chain, s.messages, start, i, e);
        }
      }
    }
  }

  /** A refused subscription is fatal with every other code, and so is a bad configuration; the
      store's cursor stays. */
  lemma {:induction false} RefusedIsFatalOtherwise<L>(chain: seq<ChainTx<L>>, cursor: Option<ChainPoint>, s: Script)
    requires s.connect.Misconfigured? || (s.connect.Up? && s.subscribe.Refused? && s.subscribe.code !in RETRIED)
    ensures SessionResult(chain, cursor, s) == SessionEnd(Fatal(Rejected), 0, cursor)
  {
    if s.connect.Up? { TransientCodes(s.subscribe.code); }
  }

  // ----- a run

  /** A run goes on to its next session exactly where this one is interrupted and no signal
      comes while the tracker waits; otherwise it ends with this one. */
  lemma {:induction false} RunGoesOnExactly<L>(
      chain: seq<ChainTx<L>>, scripts: seq<Script>, i: nat, position: nat, cursor: Option<ChainPoint>)
    requires i < |scripts|
    ensures var end, run := SessionResult(chain, cursor, scripts[i]), RunResult(chain, scripts, i, position, cursor);
      if Interrupted(chain, cursor, scripts[i]) then
        if scripts[i].signalled then run == RunEnd(Shutdown, end.position, i + 1, end.cursor)
        else run == RunResult(chain, scripts, i + 1, end.position, end.cursor)
      else run == RunEnd(end.outcome, end.position, i, end.cursor)
  {
    ReconnectsExactly(chain, cursor, scripts[i]);
  }

  // ----- the delays

  const SECONDS := [1, 2, 4, 8, 16]

  /** The delays of a run in seconds: doubling from one, and thirty from the sixth failure in a
      row on. */
  lemma {:induction false} DelayInSeconds(k: nat)
    ensures B.Scheduled(INITIAL, MAX, k) == (if k < 5 then SECONDS[k] else 30) * 1_000_000_000
  {
    assert B.Pow2(0) == 1 && B.Pow2(1) == 2 && B.Pow2(2) == 4 && B.Pow2(3) == 8 && B.Pow2(4) == 16;
    if k >= 5 { ThirtyTwo(k); }
  }

  lemma {:induction false} ThirtyTwo(k: nat)
    requires k >= 5
    ensures B.Pow2(k) >= 32
  {
    if k > 5 {
      ThirtyTwo(k - 1);
    } else {
      assert B.Pow2(3) == 8;
    }
  }
}
