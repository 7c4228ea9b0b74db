/** A block of which one transaction is committed and another one, that matches too, is not: two
    transactions that reference the same script output, and a template that asks for it.
    Everything a row depends on is spelled out: the template, the protocol with its anchors
    and its fingerprint, both transactions, their block and the two events that deliver
    them. */
module PartialBlock {
  import opened Base
  import opened Payload
  import opened Process
  import opened Store
  import opened Events
  import opened Session
  import Anchors
  import Fingerprint
  import Greedy
  import Lifting
  import Matching
  import ProcessLaws
  import Profile
  import Selection
  import SessionLaws
  import Summarize
  import T = Tir

  function Id(b: byte): Hash32 {
    seq(32, _ => b)
  }

  function Script(): UtxoRef {
    UtxoRef(Id(9), 0)
  }

  function Template(): T.Tx {
    T.Tx([], [], [], [], [T.UtxoRefs([Script()])], [], None, [], None)
  }

  function Protocol(): Source {
    Source("source", "protocol", "default", Some(Profile.Profile(map[], None)),
           Anchors.ProtocolAnchors({}, {Script()}, {}),
           map["tx" := Target(Template(), Fingerprint.Extracted(Template()))])
  }

  /** A transaction that spends an output of its own and references the script. */
  function Spending(b: byte): CardanoTx {
    CardanoTx(Id(b), [TxInput(Id(8), b)], [], [], [TxInput(Script().txid, 0)], [], [], [], None, None)
  }

  function Point(): ChainPoint {
    ChainPoint(100, Id(200))
  }

  function TheBlock(): Block {
    Block(100, Id(200), Some(Id(199)), [BlockTx(Spending(1), true), BlockTx(Spending(2), true)])
  }

  function Event(b: byte): AnyChainTx {
    AnyChainTx(Some(WatchedTx(Id(b), [], [])), Some(Decodable(TheBlock())))
  }

  lemma {:induction false} ReferenceServed(b: byte)
    ensures Greedy.Assign(Matching.ReferenceDemands(Template().references, Spending(b).references), {}).Some?
  {
    var ins := Spending(b).references;
    var rows := Matching.RefRows(ins, [Script()]);
    assert 0 in rows[0];
    assert 0 in rows[0] - {};
    var ds := Matching.ReferenceDemands(Template().references, ins);
    assert ds[0] == Greedy.Rows(rows, 1);
    assert |Greedy.Picks(rows, {})| == 1;
    assert ds[1..] == [];
  }

  lemma {:induction false} FingerprintPasses(b: byte)
    ensures Fingerprint.Extracted(Template()).Matches(Summarize.Summarized(Spending(b), map[]))
  {
    var s := Summarize.Summarized(Spending(b), map[]);
    assert Key(Spending(b).references[0]) == Script();
    assert Script() in s.referenceRefs;
    assert Fingerprint.ReferenceMinimums(Template().references) == [1];
    assert Fingerprint.SaturatingSum([1]) == 1;
  }

  lemma {:induction false} AnchorGates(b: byte)
    ensures
      Anchors.HitsOf(Anchors.ProtocolAnchors({}, {Script()}, {}), Summarize.Summarized(Spending(b), map[])).Gates()
  {
    assert Key(Spending(b).references[0]) == Script();
    Anchors.GatesExact(Anchors.ProtocolAnchors({}, {Script()}, {}), Summarize.Summarized(Spending(b), map[]));
  }

  lemma {:induction false} TemplateAssigned(b: byte)
    ensures Matching.MatchSpec(Template(), Spending(b), map[], "", "").Some?
  {
    ReferenceServed(b);
  }

  lemma {:induction false} TemplateQualifies(b: byte)
    ensures Qualifies(Protocol(), "tx", Spending(b), map[])
  {
    AnchorGates(b);
    FingerprintPasses(b);
    TemplateAssigned(b);
    hide Anchors.HitsOf, Summarize.Summarized, Fingerprint.Extracted, Matching.MatchSpec;
    assert "tx" in Protocol().txs;
  }

  lemma {:induction false} TemplateLifts(b: byte)
    requires Qualifies(Protocol(), "tx", Spending(b), map[])
    ensures LiftOf(Selection.Ranked(CandidateFor(0, Protocol(), "tx", Spending(b), map[]), 1), Spending(b), map[]).Ok?
  {
    hide Matching.MatchSpec, Anchors.HitsOf, Summarize.Summarized, Fingerprint.Extracted;
    var p := CandidateFor(0, Protocol(), "tx", Spending(b), map[]).payload;
    assert p.source == Protocol();
  }

  lemma {:induction false} OneTemplate()
    ensures Protocol().txs.Keys == {"tx"}
  {}

  lemma {:induction false} OfferMade(b: byte, point: ChainPoint) returns (row: Row)
    ensures Outcome([Protocol()], CardanoPayload(Some(Spending(b)), map[]), point, Selection.All, Ok([row]))
  {
    TemplateQualifies(b);
    TemplateLifts(b);
    OneTemplate();
    hide *;
    row := ProcessLaws.LoneOffer(Protocol(), "tx", CardanoPayload(Some(Spending(b)), map[]), point, Selection.All);
  }

  lemma {:induction false} InTheBlock(b: byte) returns (i: nat)
    requires b == 1 || b == 2
    ensures !Ignored(Event(b)) && InBlock(Event(b)) && Event(b).block.value == Decodable(TheBlock())
    ensures FirstAt(TheBlock().txs, Event(b).chain.value.hash, i)
    ensures PayloadOf(Event(b).chain.value, TheBlock().txs[i]) == CardanoPayload(Some(Spending(b)), map[])
    ensures ChainPoint(TheBlock().slot, TheBlock().hash) == Point()
  {
    i := if b == 1 then 0 else 1;
    assert Id(1)[0] != Id(2)[0];
    assert TheBlock().txs[i].tx == Spending(b) && TheBlock().txs[i] in TheBlock().txs;
  }

  lemma {:induction false} EventCommits(b: byte) returns (row: Row)
    requires b == 1 || b == 2
    ensures EffectOf(Event(b), [Protocol()], Selection.All, Commit(Point(), [row]))
  {
    var i := InTheBlock(b);
    row := OfferMade(b, Point());
    hide Outcome, PayloadOf, InBlock, FirstAt, Ignored, Event, TheBlock, Protocol, Point, Spending;
    ghost var r: Result<seq<Row>> := Ok([row]);
    assert Outcome([Protocol()], PayloadOf(Event(b).chain.value, TheBlock().txs[i]),
                   ChainPoint(TheBlock().slot, TheBlock().hash),
                   Selection.All, r);
  }

  /** Both events are ones the tracker processes, and both produce a row. */
  lemma {:induction false} BothCommit() returns (chain: seq<ChainTx<Lifting.Lifted>>)
    ensures SessionLaws.Carries([Event(1), Event(2)], [Protocol()], Selection.All, chain)
    ensures |chain| == 2 && chain[0].point == chain[1].point && chain[0].txHash != chain[1].txHash
    ensures SessionLaws.HasMatches(chain, 0) && SessionLaws.HasMatches(chain, 1)
  {
    EventShape(1);
    EventShape(2);
    assert Id(1) != Id(2) by {
      assert Id(1)[0] != Id(2)[0];
    }
    hide *;
    var first := EventCommits(1);
    var second := EventCommits(2);
    chain := PairCarried([Event(1), Event(2)], [Protocol()], Point(), first, second);
  }

  lemma {:induction false} EventShape(b: byte)
    ensures !Ignored(Event(b)) && Event(b).chain.value.hash == Id(b)
    ensures Event(b).block.value == Decodable(TheBlock())
    ensures ChainPoint(TheBlock().slot, TheBlock().hash) == Point()
  {
  }

  lemma {:induction false} PairCarried(
      events: seq<AnyChainTx>, sources: seq<Source>, point: ChainPoint, first: Row, second: Row)
    returns (chain: seq<ChainTx<Lifting.Lifted>>)
    requires |events| == 2 && !Ignored(events[0]) && !Ignored(events[1])
    requires events[0].chain.value.hash != events[1].chain.value.hash
    requires forall e | e in events && e.block.value.Decodable? ::
      ChainPoint(e.block.value.block.slot, e.block.value.block.hash) == point
    requires EffectOf(events[0], sources, Selection.All, Commit(point, [first]))
    requires EffectOf(events[1], sources, Selection.All, Commit(point, [second]))
    ensures SessionLaws.Carries(events, sources, Selection.All, chain)
    ensures |chain| == 2 && chain[0].point == chain[1].point && chain[0].txHash != chain[1].txHash
    ensures SessionLaws.HasMatches(chain, 0) && SessionLaws.HasMatches(chain, 1)
  {
    hide EffectOf;
    chain := [ChainTx(events[0].chain.value.hash, point, Commit(point, [first])),
              ChainTx(events[1].chain.value.hash, point, Commit(point, [second]))];
    assert events[0] in events && events[1] in events;
  }

  /** The documented meaning of the cursor fails: after the first of two events of one block the
      cursor names that block while the row of the second is not there. */
  lemma {:induction false} CursorBlockMayBePartial() returns (chain: seq<ChainTx<Lifting.Lifted>>)
    ensures SessionLaws.Carries([Event(1), Event(2)], [Protocol()], Selection.All, chain)
    ensures InBlocks(chain) && SessionLaws.DistinctBatches(chain) && |chain| == 2
    ensures SyncedAt(chain, TableOf(chain, 1), StoredOf(Some(chain[0].point)), 1)
    ensures !SessionLaws.BlockStored(chain, TableOf(chain, 1), chain[0].point.hash)
  {
    hide *;
    chain := BothCommit();
    SessionLaws.EventsMakeAChain([Event(1), Event(2)], [Protocol()], Selection.All, chain, chain);
    SessionLaws.SecondIsMissing(chain);
  }
}
