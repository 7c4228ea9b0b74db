/** Inputs as a ledger lists them, and a supply of outputs that nothing else names. */
module Ledger {
  import opened Base
  import opened Payload

  /** Outputs of transactions, whose ids have 32 bytes, none of them twice. */
  ghost predicate Spendable(ins: seq<TxInput>) {
    && (forall i | 0 <= i < |ins| :: |ins[i].hash| == 32)
    && (forall i, j | 0 <= i < j < |ins| :: Key(ins[i]) != Key(ins[j]))
  }

  /** At least one input, and neither an input nor a reference input twice. */
  ghost predicate OnLedger(ctx: CardanoTx) {
    ctx.inputs != [] && Spendable(ctx.inputs) && Spendable(ctx.references)
  }

  // ----- fresh outputs

  /** How many ids of `n` bytes there are. */
  function Ids(n: nat): nat {
    if n == 0 then 1 else 256 * Ids(n - 1)
  }

  function IdOf(k: nat, n: nat): (id: Bytes)
    ensures |id| == n
  {
    if n == 0 then [] else IdOf(k / 256, n - 1) + [k % 256]
  }

  lemma {:induction false} IdsDiffer(j: nat, k: nat, n: nat)
    requires j < Ids(n) && k < Ids(n) && IdOf(j, n) == IdOf(k, n)
    ensures j == k
  {
    if n > 0 {
      assert IdOf(j, n)[..n - 1] == IdOf(j / 256, n - 1) && IdOf(k, n)[..n - 1] == IdOf(k / 256, n - 1);
      assert IdOf(j, n)[n - 1] == j % 256 && IdOf(k, n)[n - 1] == k % 256;
      IdsDiffer(j / 256, k / 256, n - 1);
    }
  }

  function Candidate(k: nat): TxInput {
    TxInput(IdOf(k, 32), 0)
  }

  /** Those of the first `k` candidates that are not used. */
  function Unused(k: nat, used: set<UtxoRef>): seq<TxInput> {
    if k == 0 then []
    else if Key(Candidate(k - 1)) in used then Unused(k - 1, used - {Key(Candidate(k - 1))})
    else Unused(k - 1, used) + [Candidate(k - 1)]
  }

  lemma {:induction false} EnoughUnused(k: nat, used: set<UtxoRef>)
    ensures |Unused(k, used)| + |used| >= k
  {
    if k > 0 {
      var key := Key(Candidate(k - 1));
      EnoughUnused(k - 1, if key in used then used - {key} else used);
    }
  }

  lemma {:induction false} UnusedIsCandidate(k: nat, used: set<UtxoRef>, i: nat) returns (j: nat)
    requires k <= Ids(32) && i < |Unused(k, used)|
    ensures j < k && Unused(k, used)[i] == Candidate(j) && Key(Candidate(j)) !in used
  {
    hide Ids, IdOf, Candidate, Key;
    var last := Key(Candidate(k - 1));
    if last in used {
      j := UnusedIsCandidate(k - 1, used - {last}, i);
      CandidatesDiffer(j, k - 1);
    } else if i < |Unused(k - 1, used)| {
      j := UnusedIsCandidate(k - 1, used, i);
    } else {
      j := k - 1;
    }
  }

  lemma {:induction false} CandidatesDiffer(j: nat, k: nat)
    requires j < Ids(32) && k < Ids(32) && j != k
    ensures Key(Candidate(j)) != Key(Candidate(k))
  {
    hide Ids, IdOf;
    if IdOf(j, 32) == IdOf(k, 32) { IdsDiffer(j, k, 32); }
  }

  lemma {:induction false} UnusedDiffer(k: nat, used: set<UtxoRef>, i: nat, j: nat)
    requires k <= Ids(32) && i < j < |Unused(k, used)|
    ensures Key(Unused(k, used)[i]) != Key(Unused(k, used)[j])
  {
    hide Ids, IdOf, Candidate, Key;
    var last := Key(Candidate(k - 1));
    if last in used {
      UnusedDiffer(k - 1, used - {last}, i, j);
    } else if j < |Unused(k - 1, used)| {
      UnusedDiffer(k - 1, used, i, j);
    } else {
      var l := UnusedIsCandidate(k - 1, used, i);
      CandidatesDiffer(l, k - 1);
    }
  }

  lemma {:induction false} UnusedSound(k: nat, used: set<UtxoRef>)
    requires k <= Ids(32)
    ensures Spendable(Unused(k, used))
    ensures forall i | 0 <= i < |Unused(k, used)| :: Key(Unused(k, used)[i]) !in used
  {
    hide Ids, IdOf, Unused;
    forall i: nat | i < |Unused(k, used)| ensures |Unused(k, used)[i].hash| == 32 && Key(Unused(k, used)[i]) !in used {
      var j := UnusedIsCandidate(k, used, i);
    }
    forall i: nat, j: nat | i < j < |Unused(k, used)| ensures Key(Unused(k, used)[i]) != Key(Unused(k, used)[j]) {
      UnusedDiffer(k, used, i, j);
    }
  }

  /** Outputs that are all different and not used, as many as asked for. */
  function Strays(n: nat, used: set<UtxoRef>): (strays: seq<TxInput>)
    requires n + |used| <= Ids(32)
    ensures |strays| == n && Spendable(strays)
    ensures forall i | 0 <= i < n :: Key(strays[i]) !in used
  {
    hide *;
    StraysSound(n, used);
    Unused(n + |used|, used)[..n]
  }

  lemma {:induction false} StraysSound(n: nat, used: set<UtxoRef>)
    requires n + |used| <= Ids(32)
    ensures var all := Unused(n + |used|, used);
      && n <= |all| && Spendable(all[..n])
      && forall i | 0 <= i < n :: Key(all[..n][i]) !in used
  {
    hide *;
    EnoughUnused(n + |used|, used);
    UnusedSound(n + |used|, used);
    StraysPrefix(Unused(n + |used|, used), n, used);
  }

  lemma {:induction false} StraysPrefix(all: seq<TxInput>, n: nat, used: set<UtxoRef>)
    requires n <= |all| && Spendable(all)
    requires forall i | 0 <= i < |all| :: Key(all[i]) !in used
    ensures |all[..n]| == n && Spendable(all[..n])
    ensures forall i | 0 <= i < n :: Key(all[..n][i]) !in used
  {}
}
