/** The information score of a fingerprint is the number of things it requires. */
module InformationScore {
  import opened Base
  import opened Fingerprint

  datatype Kind =
    | InputAddress | OutputAddress | InputRef | ReferenceRef | MintPolicy | BurnPolicy | ValuePolicy | Signer
    | MetadataLabel

  datatype What = OfBytes(bytes: Bytes) | OfRef(ref: UtxoRef) | OfNumber(number: u64)

  /** Something a fingerprint requires, and as what. */
  datatype Entry = Entry(kind: Kind, what: What)

  ghost predicate AmongBytes(w: What, s: set<Bytes>) {
    w.OfBytes? && w.bytes in s
  }

  ghost predicate AmongRefs(w: What, s: set<UtxoRef>) {
    w.OfRef? && w.ref in s
  }

  ghost predicate Requires(fp: Fingerprint, e: Entry) {
    match e.kind
    case InputAddress => AmongBytes(e.what, fp.inputAddresses)
    case OutputAddress => AmongBytes(e.what, fp.outputAddresses)
    case InputRef => AmongRefs(e.what, fp.inputRefs)
    case ReferenceRef => AmongRefs(e.what, fp.referenceRefs)
    case MintPolicy => AmongBytes(e.what, fp.mintPolicies)
    case BurnPolicy => AmongBytes(e.what, fp.burnPolicies)
    case ValuePolicy => AmongBytes(e.what, fp.valuePolicies)
    case Signer => AmongBytes(e.what, fp.signers)
    case MetadataLabel => e.what.OfNumber? && e.what.number in fp.metadataLabels
  }

  ghost function OfKind(entries: set<Entry>, k: Kind): set<Entry> {
    set e | e in entries && e.kind == k
  }

  lemma {:induction false} BytesCounted(entries: set<Entry>, k: Kind, s: set<Bytes>)
    requires forall w :: Entry(k, w) in entries <==> AmongBytes(w, s)
    ensures |OfKind(entries, k)| == |s|
  {
    if b :| b in s {
      var e := Entry(k, OfBytes(b));
      BytesCounted(entries - {e}, k, s - {b});
      assert OfKind(entries, k) == OfKind(entries - {e}, k) + {e};
    } else {
      forall e: Entry ensures e !in OfKind(entries, k) { assert e == Entry(e.kind, e.what); }
      assert OfKind(entries, k) == {};
    }
  }

  lemma {:induction false} RefsCounted(entries: set<Entry>, k: Kind, s: set<UtxoRef>)
    requires forall w :: Entry(k, w) in entries <==> AmongRefs(w, s)
    ensures |OfKind(entries, k)| == |s|
  {
    if r :| r in s {
      var e := Entry(k, OfRef(r));
      RefsCounted(entries - {e}, k, s - {r});
      assert OfKind(entries, k) == OfKind(entries - {e}, k) + {e};
    } else {
      forall e: Entry ensures e !in OfKind(entries, k) { assert e == Entry(e.kind, e.what); }
      assert OfKind(entries, k) == {};
    }
  }

  lemma {:induction false} NumbersCounted(entries: set<Entry>, s: set<u64>)
    requires forall w :: Entry(MetadataLabel, w) in entries <==> w.OfNumber? && w.number in s
    ensures |OfKind(entries, MetadataLabel)| == |s|
  {
    if n :| n in s {
      var e := Entry(MetadataLabel, OfNumber(n));
      NumbersCounted(entries - {e}, s - {n});
      assert OfKind(entries, MetadataLabel) == OfKind(entries - {e}, MetadataLabel) + {e};
    } else {
      forall e: Entry ensures e !in OfKind(entries, MetadataLabel) { assert e == Entry(e.kind, e.what); }
      assert OfKind(entries, MetadataLabel) == {};
    }
  }

  function Rank(k: Kind): nat {
    match k
    case InputAddress => 0
    case OutputAddress => 1
    case InputRef => 2
    case ReferenceRef => 3
    case MintPolicy => 4
    case BurnPolicy => 5
    case ValuePolicy => 6
    case Signer => 7
    case MetadataLabel => 8
  }

  ghost function From(entries: set<Entry>, n: nat): set<Entry> {
    set e | e in entries && Rank(e.kind) >= n
  }

  lemma {:induction false} OneKind(entries: set<Entry>, k: Kind)
    ensures |From(entries, Rank(k))| == |OfKind(entries, k)| + |From(entries, Rank(k) + 1)|
  {
    assert From(entries, Rank(k)) == OfKind(entries, k) + From(entries, Rank(k) + 1);
  }

  lemma {:induction false} KindsCounted(entries: set<Entry>)
    ensures |entries| ==
      |OfKind(entries, InputAddress)| + |OfKind(entries, OutputAddress)| + |OfKind(entries, InputRef)|
      + |OfKind(entries, ReferenceRef)| + |OfKind(entries, MintPolicy)| + |OfKind(entries, BurnPolicy)|
      + |OfKind(entries, ValuePolicy)| + |OfKind(entries, Signer)| + |OfKind(entries, MetadataLabel)|
  {
    assert From(entries, 0) == entries && From(entries, 9) == {};
    hide From, OfKind;
    OneKind(entries, InputAddress);
    OneKind(entries, OutputAddress);
    OneKind(entries, InputRef);
    OneKind(entries, ReferenceRef);
    OneKind(entries, MintPolicy);
    OneKind(entries, BurnPolicy);
    OneKind(entries, ValuePolicy);
    OneKind(entries, Signer);
    OneKind(entries, MetadataLabel);
  }

  /** The information score counts everything the fingerprint requires, once each. */
  lemma {:induction false} ScoreCountsEntries(fp: Fingerprint, entries: set<Entry>)
    requires forall e :: e in entries <==> Requires(fp, e)
    ensures fp.InformationScore() == |entries|
  {
    KindsCounted(entries);
    hide OfKind, AmongBytes, AmongRefs;
    BytesCounted(entries, InputAddress, fp.inputAddresses);
    BytesCounted(entries, OutputAddress, fp.outputAddresses);
    RefsCounted(entries, InputRef, fp.inputRefs);
    RefsCounted(entries, ReferenceRef, fp.referenceRefs);
    BytesCounted(entries, MintPolicy, fp.mintPolicies);
    BytesCounted(entries, BurnPolicy, fp.burnPolicies);
    BytesCounted(entries, ValuePolicy, fp.valuePolicies);
    BytesCounted(entries, Signer, fp.signers);
    NumbersCounted(entries, fp.metadataLabels);
  }
}
