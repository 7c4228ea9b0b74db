/** The chain-neutral projection that fingerprints and anchors are evaluated on
    (crates/tx3-lift/src/payload.rs). */
module Summary {
  import opened Base

  datatype PayloadSummary = PayloadSummary(
    inputAddresses: set<Bytes>,
    outputAddresses: set<Bytes>,
    outputAddressesWithDatum: set<Bytes>,
    inputRefs: set<UtxoRef>,
    referenceRefs: set<UtxoRef>,
    mintPolicies: set<Bytes>,
    burnPolicies: set<Bytes>,
    valuePolicies: set<Bytes>,
    signers: set<Bytes>,
    metadataLabels: set<u64>,
    inputCount: u16,
    outputCount: u16,
    mintCount: u16,
    burnCount: u16,
    collateralCount: u16,
    referenceCount: u16,
    hasValidity: bool,
    extras: map<string, Bytes>)
}
