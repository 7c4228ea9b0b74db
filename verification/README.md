# A verified model of the tx3 lifter and tracker

The tracker watches Cardano transactions, decides which transaction templates of which protocols they
instantiate, annotates the ones that match, and keeps the annotations in a database that survives
crashes, reconnects and rollbacks. This Dafny project models that pipeline and proves what it promises.

`dafny verify dfyconfig.toml` checks everything.

## How it is organised

- **Template expressions** (`Tir`, `Expr`, `Readers`, `SetErasure`, `ErasureInvariance`): the reduced
  expression tree, the constant readers and the classification. `Readers` says what each reader answers, by
  the shape of the expression. `Param::Set` wrappers can be erased anywhere without changing any reader, the
  fingerprint or the match.
- **Matching** (`Greedy`, `Payload`, `Matching`, `MatchLaws`, `MatchExact`, `PlainMatch`,
  `OutputCompleteness`): the loops over consumed flags, each against the first-fit run of the demands its TIR
  elements make. `PlainMatch` says what a match takes without naming any reader or test of the matcher.
  `Sound` says what an assignment must look like in terms of transaction parts only; `MatchExactly`
  shows that the matcher returns `m` if and only if `m` is sound. `OutputCompleteness` compares the greedy
  output loop with the existence of any assignment at all.
- **Pre-filter** (`Summary`, `Summarize`, `Fingerprint`, `PlainFilter`, `InformationScore`, `Prefilter`,
  `Witness`, `ReferenceCost`, `PrefilterExact`): three traversals written independently of each other.
  `PlainFilter` says in terms of template and transaction when the filter passes and when a source gates. `Prefilter` proves the
  fingerprint necessary for a match, component by component, under conditions on the template; `Witness`
  builds a transaction that a template accepts, `ReferenceCost` finds the fewest reference inputs that serve
  one, and `PrefilterExact` uses such transactions to show that the conditions are exact.
- **Pre-filter on the ledger** (`Ledger`, `LedgerReferences`, `PrefilterLedger`): the same over transactions
  that have an input and name neither an input nor a reference input twice.
- **Anchors, hashing, parsing** (`Anchors`, `Profile`, `RefParsing`, `Fnv`): tiered anchor counts as set
  cardinalities, the UTxO-reference parser and its language, FNV-1a as in section 2 of draft-eastlake-fnv.
- **Lifting** (`Datum`, `Roles`, `Lifting`, `LiftLaws`, `PlainLift`): annotations, party roles as a lattice
  join, and datum decoding with a left inverse. `PlainLift` says field by field what an annotation shows.
- **Selection and events** (`Names`, `Ordered`, `Selection`, `SelectionLaws`, `Process`, `ProcessLaws`,
  `RowLaws`, `SourceOrder`, `Events`, `EventLaws`): gating, scoring, per-source dedup, dense ranks, what a
  row shows of its match, when the order of candidates and of configured sources matters, and the effect of
  an apply or undo event.
- **Persistence** (`Store`, `StoreLaws`, `Session`, `SessionOutcomes`, `SessionLaws`, `PartialBlock`,
  `Migrations`, `Backoff`): the matches table and cursor, the reconnect loop over scripted transport outcomes, what the
  cursor says of the table, the migration runner and the backoff schedule.

Objects the program updates in place are classes (`Store`, `Database`, `Backoff`) or arrays (the consumed
flags). Loops are methods, each with a contract that ties its result to a definition, and the laws are
lemmas about those definitions.

## Where code and documentation differ

The model follows the code.

- The fingerprint is documented as a set of necessary conditions for a match. It is not: a query input may
  match with an empty slot while its pinned address is required, an optional output's address is required,
  a mint needs any of several policies while all are required, and a reference list may match in part
  while all of it is required. `PrefilterRejectsAMatch` is a concrete case, `PrefilterRejectsOnLedger` one
  with a resolved input of another address, and `PrefilterExactness` gives the condition.
- The database guide calls the cursor the highest block whose matches have all been committed. The cursor is
  set with the first transaction of a block, so it may name a block that is stored in part only:
  `CursorBlockMayBePartial` follows two transactions of one block through the whole model. `BlockStoredExactly`
  says of any block that its matches are all committed if and only if none of its transactions still to
  come has any, and `CursorIsHighestExactly` says that the cursor has the documented meaning if and only if
  this is so of its own block; everything before that block is committed, and nothing after it. Resuming is
  lossless because the server redelivers from the cursor's block inclusively; `ResumingAfterBlock` says that
  resuming after it would be lossless exactly where the documented meaning holds.
- The database guide says every row belongs to a block on the canonical chain. That holds when a
  transaction changes block only after being undone (`EveryRowIsCurrent`); a row is kept with its old
  block otherwise (`MovedWithoutUndo`).
- Selection is documented as one match per source. Loading a configuration accepts two sources of the same
  name, and of two candidates that differ in payload alone the earlier one is then kept
  (`EarlierPayloadWins`). The order of candidates is irrelevant if and only if no two different ones are
  unbeaten in one source (`OrderIrrelevantExactly`), which distinct names ensure (`CollectionSettled`).
- An undo stores the undone block's slot minus one together with the parent's hash. The cursor is then the
  parent's point if and only if the parent is one slot before (`UndoReachesParentExactly`), and it is
  cleared where the event carries no block (`UndoClearsExactly`). An event without its transaction leaves
  both the rows and the cursor as they are. The model identifies blocks by hash.

## Model

| member | source | states |
|---|---|---|
| `Expr.Combine` | crates/tx3-lift/src/expr.rs:54-65 | folding kinds yields computed if any is, else parameter-driven if any is, else constant |
| `Expr.ClassifyMeaning` | crates/tx3-lift/src/expr.rs:10-52 | an expression is computed exactly when a computed part occurs anywhere in it, and constant exactly when neither a computed nor a parameter part does |
| `Expr.CollectConstPolicies` | crates/tx3-lift/src/expr.rs:115-140 | the recursive walk appends the constant policies of an asset expression, in order, to what was collected before |
| `Readers.AddressRead` | crates/tx3-lift/src/expr.rs:67-76 | an address is read exactly off an address literal under any number of `Set` wrappers |
| `Readers.RefsRead` | crates/tx3-lift/src/expr.rs:79-88 | references are read exactly off a list of references under wrappers |
| `Readers.NumberRead` | crates/tx3-lift/src/expr.rs:91-100 | a number is read exactly off a number under wrappers |
| `Readers.BytesRead` | crates/tx3-lift/src/expr.rs:103-112 | bytes are read exactly off bytes, or a hash, under wrappers |
| `Readers.QueryRead` | crates/tx3-lift/src/fingerprint.rs:258-267 | a query is read exactly off an unresolved input under wrappers, whatever its name |
| `Readers.PoliciesRead` | crates/tx3-lift/src/expr.rs:115-140 | a policy is collected exactly where it is not empty and is the bytes or hash of the policy of an asset that is met through lists and wrappers |
| `SetErasure.ErasePreservesClassify` | crates/tx3-lift/src/expr.rs:10-52 | erasing every `Set` wrapper anywhere keeps the classification |
| `SetErasure.ErasePreservesReaders` | crates/tx3-lift/src/expr.rs:67-112 | erasing keeps the result of all four constant readers and of the input-query reader, up to erasing inside the query |
| `SetErasure.ErasePreservesPolicies` | crates/tx3-lift/src/expr.rs:115-140 | erasing keeps the collected constant policies |
| `SetErasure.ReadersIgnoreSet` | crates/tx3-lift/src/expr.rs:67-140 | two expressions that differ in wrappers only are read and classified alike |
| `SetErasure.EraseRemovesWrappers` | crates/tx3-lift/src/expr.rs:10-52 | erasing leaves no wrapper and is the identity where there is none |
| `ErasureInvariance.ErasePreservesFingerprint` | crates/tx3-lift/src/fingerprint.rs:162-309 | a template and its erased form have the same fingerprint: all required sets and counts |
| `ErasureInvariance.ErasePreservesMatch` | crates/tx3-lift-cardano/src/matching.rs:9-259 | a template and its erased form have the same match on every transaction |
| `Matching.AssignInputByQuery` | crates/tx3-lift-cardano/src/matching.rs:202-248 | a query takes the lowest free input that meets its address, or every free one when it wants many; the flags grow by exactly what was taken |
| `Matching.AssignInputs` | crates/tx3-lift-cardano/src/matching.rs:22-35 | the input loop is the first-fit run of the inputs' demands and fails where that run fails |
| `Matching.AssignOutputs` | crates/tx3-lift-cardano/src/matching.rs:37-63 | the output loop is the first-fit run in which optional outputs may stay empty |
| `Matching.AssignMints` | crates/tx3-lift-cardano/src/matching.rs:65-113 | the mint and burn loops are first-fit runs over entries of the right sign that carry any required policy |
| `Matching.AssignReferences` | crates/tx3-lift-cardano/src/matching.rs:115-150 | the reference loop serves as much of a constant list as is present and needs at least one entry |
| `Matching.MatchTx` | crates/tx3-lift-cardano/src/matching.rs:9-164 | the five class runs assembled, no match where one of them fails, an error where the payload does not decode |
| `MatchLaws.MatchIsSound` | crates/tx3-lift-cardano/src/matching.rs:22-248 | a match has one slot per template element; all indices are in range; none occurs twice in a class; every pick passes its test and is the lowest free one; a `many` query leaves nothing eligible free |
| `MatchExact.MatchExactly` | crates/tx3-lift-cardano/src/matching.rs:9-164 | the matcher returns an assignment if and only if it is sound, and nothing if and only if no assignment is sound |
| `PlainMatch.MatchTakesWhatIsAsked` | crates/tx3-lift-cardano/src/matching.rs:22-248 | a list of references takes the inputs that spend them; a query takes one input, or all, whose delivered output is at the address it pins; an output takes one at its address, and only an optional one may take none; a mint or burn takes an entry of its sign and of a policy it names, if it names any; a reference list takes what there is of it; and nothing that an element asks for is passed over |
| `PlainMatch.QueryTest` | crates/tx3-lift-cardano/src/matching.rs:202-248 | an input passes a query exactly where the query pins no address or the output that it spends was delivered at that address |
| `PlainMatch.OutputTest` | crates/tx3-lift-cardano/src/matching.rs:37-63 | an output passes exactly where no address is pinned or it is at that address |
| `PlainMatch.MintTest` | crates/tx3-lift-cardano/src/matching.rs:65-113 | an entry passes exactly where some amount has the sign and the policy is among those named, or none is named |
| `PlainMatch.ReferenceTest` | crates/tx3-lift-cardano/src/matching.rs:115-150 | a reference input passes exactly where it is listed, or nothing is |
| `Greedy.AssignInjective` | crates/tx3-lift-cardano/src/matching.rs:22-150 | two positions of a run never hold the same payload index |
| `OutputCompleteness.GreedyCompleteWithoutStealing` | crates/tx3-lift-cardano/src/matching.rs:37-63 | where no output can take what a later required one needs, the output loop fails exactly when no injective assignment that respects addresses exists |
| `OutputCompleteness.GreedyCompleteExact` | crates/tx3-lift-cardano/src/matching.rs:37-63 | the output loop is complete on every transaction if and only if no output can steal from a later required one |
| `Summarize.Summarize` | crates/tx3-lift-cardano/src/summarize.rs:7-105 | the summary's sets are images of the transaction's parts and its counts are cardinalities capped at 65535; an error where the payload does not decode |
| `Summarize.DatumAddressesAreOutputAddresses` | crates/tx3-lift-cardano/src/summarize.rs:32-45 | the addresses of datum-bearing outputs are among the output addresses |
| `Fingerprint.Extract` | crates/tx3-lift/src/fingerprint.rs:162-309 | the extraction loops compute each required set as a union over elements and each minimum as a saturating sum of truncated lengths |
| `PlainFilter.FilterPlainly` | crates/tx3-lift/src/fingerprint.rs:53-130 | a template's fingerprint passes exactly where every pinned address, listed reference, named policy, constant signer and label is in the transaction, there are as many inputs, outputs, entries of each sign, collateral inputs and reference inputs as asked for, 65535 standing for any more, and a validity interval where one is asked for |
| `PlainFilter.GatesPlainly` | crates/tx3-lift/src/anchors.rs:121-161 | a source gates exactly where the transaction spends from, sends a datum to, spends, references, mints or burns one of its anchors |
| `InformationScore.ScoreCountsEntries` | crates/tx3-lift/src/fingerprint.rs:133-143 | the information score is the number of required entries, each with what it is required as |
| `Prefilter.SaturatingSumIsSum` | crates/tx3-lift/src/fingerprint.rs:232-309 | adding up with saturation at every step equals saturating the exact sum once |
| `Prefilter.PrefilterNecessary` | crates/tx3-lift/src/fingerprint.rs:53-130 | where the template's conditions hold and its query slots are filled, the fingerprint of a matching template passes on input refs, input and output addresses, reference refs, mint and burn policies and all structural counts, truncation and saturation included |
| `Witness.MatchableExact` | crates/tx3-lift-cardano/src/matching.rs:22-150 | some transaction matches a template if and only if no open `many` query precedes a reference input and no reference list is empty |
| `Witness.WitnessAccepted` | crates/tx3-lift-cardano/src/matching.rs:9-164 | the constructed transaction is matched, for every choice of what it leaves out |
| `PrefilterExact.InputAddressesExact` | crates/tx3-lift/src/fingerprint.rs:232-256 | the input-address test passes on every match if and only if no query pins an address |
| `PrefilterExact.InputCountExact` | crates/tx3-lift/src/fingerprint.rs:232-256 | the input-count test passes on every match if and only if the minimum is met by the smallest transaction that matches |
| `PrefilterExact.OutputAddressesExact` | crates/tx3-lift/src/fingerprint.rs:269-282 | the output-address test passes on every match if and only if each optional output's address is also pinned by a required one |
| `PrefilterExact.MintPoliciesExact` | crates/tx3-lift/src/fingerprint.rs:284-295 | the mint-policy test passes on every match if and only if every named policy is the only one of some mint |
| `PrefilterExact.BurnPoliciesExact` | crates/tx3-lift/src/fingerprint.rs:284-295 | the same for burns |
| `PrefilterExact.ReferenceRefsExact` | crates/tx3-lift/src/fingerprint.rs:297-309 | the reference test passes on every match if and only if every listed reference is the only one of some list |
| `PrefilterExact.ReferenceCountExact` | crates/tx3-lift/src/fingerprint.rs:297-309 | the reference-count test passes on every match if and only if the minimum is met by the fewest reference inputs that serve the template, truncation and saturation included |
| `PrefilterExact.RecurringListsExact` | crates/tx3-lift/src/fingerprint.rs:297-309 | up to 65535 references that is so if and only if every list of several references names only what later lists name again |
| `ReferenceCost.FewestNecessary` | crates/tx3-lift-cardano/src/matching.rs:115-150 | a transaction that serves the references has at least the fewest reference inputs, a minimum over the choices of the lists that share nothing with later ones |
| `ReferenceCost.FewestSuffices` | crates/tx3-lift-cardano/src/matching.rs:115-150 | some reference inputs are as few and serve the references |
| `PrefilterExact.PrefilterExactness` | crates/tx3-lift/src/fingerprint.rs:53-130 | the whole filter never rejects a match if and only if nothing but structure is required and the structural conditions hold |
| `PrefilterExact.PrefilterRejectsAMatch` | crates/tx3-lift-cardano/src/matching.rs:195-199 | a template whose query pins an address matches a transaction with no inputs that its own fingerprint rejects |
| `PrefilterLedger.PrefilterExactnessOnLedger` | crates/tx3-lift/src/fingerprint.rs:53-130 | over transactions that have an input and name neither an input nor a reference input twice, a template that matches any of them is never rejected if and only if nothing but structure is required and the structural conditions hold, where a reference is forced if some list names nothing else first, and one reference input per list or parameter must meet the minimum |
| `PrefilterLedger.LedgerMatchableExact` | crates/tx3-lift-cardano/src/matching.rs:22-150 | some such transaction matches a template if and only if no open `many` query precedes a reference input, no output is listed twice, and every reference list names something that no earlier one names |
| `PrefilterLedger.MintsAndBurnsDisagree` | crates/tx3-lift-cardano/src/matching.rs:65-113 | where a policy has one entry, two mints and two burns of the same two policies may ask for opposite orders of the entries, and then nothing matches |
| `PrefilterLedger.PrefilterRejectsOnLedger` | crates/tx3-lift-cardano/src/matching.rs:195-199 | the same template matches a transaction whose only input is resolved to another address, and its fingerprint rejects it |
| `Fnv.Fnv1a64` | crates/tx3-lift/src/fingerprint.rs:151-158 | the per-byte loop computes the fold of the step over the bytes |
| `Fnv.UnstepStep` | crates/tx3-lift/src/fingerprint.rs:151-158 | a step is undone by the inverse of the prime modulo 2^64 followed by the byte |
| `Fnv.SuffixInjective` | crates/tx3-lift/src/fingerprint.rs:151-158 | a common suffix never merges two hash states |
| `Fnv.OneByteChangeDetected` | crates/tx3-lift/src/fingerprint.rs:151-158 | byte strings of equal length that differ in one position hash differently |
| `Fnv.PublishedHashes` | crates/tx3-lift/src/fingerprint.rs:151-158 | the empty string and "a" have their published hashes |
| `Anchors.Hits` | crates/tx3-lift/src/anchors.rs:121-161 | the counting loops compute, per tier, the cardinality of the anchors present in the summary |
| `Anchors.TierBounds` | crates/tx3-lift/src/anchors.rs:121-161 | gating hits are at most total hits, and those at most the number of anchors |
| `Anchors.TiersPartition` | crates/tx3-lift/src/anchors.rs:121-161 | total hits are gating hits plus the anchors that are present in the soft tier only |
| `Anchors.HitsMonotone` | crates/tx3-lift/src/anchors.rs:121-161 | a larger summary never lowers either count |
| `Anchors.TotalIsFlat` | crates/tx3-lift/src/anchors.rs:121-161 | on summaries of transactions the total is the flat count of distinct anchors over the union sets |
| `Anchors.GatesExact` | crates/tx3-lift/src/anchors.rs:39-41 | a summary gates if and only if it spends from, sends a datum to, spends or references, mints or burns one of the anchors |
| `Anchors.FromProfile` | crates/tx3-lift/src/anchors.rs:67-95 | fails exactly when a party address does not decode; otherwise the anchors are the party addresses and the references and policies among the environment's strings |
| `RefParsing.ParseUtxoRef` | crates/tx3-lift/src/anchors.rs:172-184 | the parser with its scanning loops computes the reference denoted by the text |
| `RefParsing.ParsePrint` | crates/tx3-lift/src/anchors.rs:172-184 | parsing the printed form returns the reference, for every 32-byte id and 32-bit index |
| `RefParsing.ParseAccepts` | crates/tx3-lift/src/anchors.rs:172-184 | a string parses if and only if it is 64 hex digits, `#` and decimal digits whose value fits 32 bits, and it denotes those digits |
| `RefParsing.PrintParse` | crates/tx3-lift/src/anchors.rs:172-184 | printing a parsed reference returns the text if and only if it is lower case and has no leading zero |
| `RefParsing.RefOrPolicy` | crates/tx3-lift/src/anchors.rs:172-194 | no string is both a reference and a policy |
| `RefParsing.PolicySpelt` | crates/tx3-lift/src/anchors.rs:188-194 | a string is a policy exactly where it is 56 hex digits of either case, and then the 28 bytes they spell |
| `RefParsing.ReferenceSpelt` | crates/tx3-lift/src/anchors.rs:172-184 | a string is a reference exactly where it is 64 hex digits of either case that spell the id, `#`, and decimal digits that come to the index |
| `Datum.CborIntegersAreNumbers` | crates/tx3-lift-cardano/src/datum.rs:40-48 | every CBOR integer (section 3.1 of RFC 8949) decodes to the number it is |
| `Datum.EncodeDecode` | crates/tx3-lift-cardano/src/datum.rs:4-48 | a left inverse recovers the canonical form of every datum |
| `Datum.DecodeKernel` | crates/tx3-lift-cardano/src/datum.rs:4-48 | two data decode alike if and only if their canonical forms agree |
| `Datum.DecodeInvertible` | crates/tx3-lift-cardano/src/datum.rs:4-48 | the left inverse recovers the datum up to array form if and only if it has no big-integer byte forms and no explicit constructor numbers |
| `Roles.CombineRoleIsJoin` | crates/tx3-lift-cardano/src/lifting.rs:282-289 | combining roles is commutative, associative and idempotent with absent as identity |
| `Roles.MatchParty` | crates/tx3-lift-cardano/src/lifting.rs:268-280 | credit goes to the first party in name order that has the address, and no other party changes |
| `Roles.RoleIsLub` | crates/tx3-lift-cardano/src/lifting.rs:268-289 | after any sequence of observations a party's role is the join of the kinds credited to it |
| `Roles.RolesIgnoreOrder` | crates/tx3-lift-cardano/src/lifting.rs:268-289 | the roles do not depend on the order of the observations |
| `Lifting.LiftInputs` | crates/tx3-lift-cardano/src/lifting.rs:81-139 | one annotation per collected slot with its view and credited party, parties credited in slot order; an error exactly when a delivered output does not decode |
| `Lifting.UpdateSignerPartyRoles` | crates/tx3-lift-cardano/src/lifting.rs:326-337 | crediting the annotated signers equals crediting the signatures as observations |
| `Lifting.Lift` | crates/tx3-lift-cardano/src/lifting.rs:24-79 | all annotations and final roles of a lift, and which error it ends in |
| `LiftLaws.LiftLosesNothing` | crates/tx3-lift-cardano/src/lifting.rs:81-235 | for an assignment of the matcher, lifted under any names, the out-of-range fallbacks never fire: each class has as many annotations as slot entries, and each annotation carries its own template element and payload entry |
| `LiftLaws.LiftSucceedsExactly` | crates/tx3-lift-cardano/src/lifting.rs:24-79 | lifting a match, under any names, succeeds if and only if the profile exists, its parties decode and the outputs delivered for matched inputs decode; the first of these that fails is the error |
| `LiftLaws.PinnedInputShown` | crates/tx3-lift-cardano/src/lifting.rs:81-139 | the annotation of an input whose query pins an address shows that address |
| `LiftLaws.PinnedOutputShown` | crates/tx3-lift-cardano/src/lifting.rs:180-210 | the annotation of an output that pins an address shows that address |
| `LiftLaws.RolesAreJoins` | crates/tx3-lift-cardano/src/lifting.rs:268-337 | after a lift each party's role is the join over inputs, outputs and signers: absent if and only if nothing was credited, multiple if and only if two kinds differ |
| `PlainLift.LiftShowsParts` | crates/tx3-lift-cardano/src/lifting.rs:81-265 | every annotation shows the address, coins and datum of its output, an input those of the output it spends or nothing where that was not delivered; inline data is shown as an expression that encodes it, a datum hash as that hash; and each comes with the first party in the alphabet at that address, or that has the key hash |
| `PlainLift.RolesAgree` | crates/tx3-lift-cardano/src/lifting.rs:268-337 | a party is absent, input, output or signer as the annotations that name it are, and multiple where they are of two kinds |
| `PlainLift.CreditIsFirst` | crates/tx3-lift-cardano/src/lifting.rs:268-280 | credit goes to the alphabetically first party whose address was seen or contains the key hash |
| `Selection.BestPerSource` | bin/tracker/src/process.rs:254-272 | the map holds, for every source that has a candidate, its champion |
| `Selection.SelectMatches` | bin/tracker/src/process.rs:251-303 | the result is in order of score and source, holds exactly the survivors the mode keeps, and ranks each one past the number of distinct larger survivor scores |
| `Names.LessIsAlphabetical` | bin/tracker/src/process.rs:275-279 | names are compared by their first different character, and a name comes before its continuations |
| `SelectionLaws.SelectedByScoreAndName` | bin/tracker/src/process.rs:254-279 | no candidate of the source of a survivor has a higher score, or the same and a name that comes before; survivors come by falling score and then in the alphabetical order of their sources |
| `SelectionLaws.OnePerSource` | bin/tracker/src/process.rs:254-272 | no source survives twice, and no candidate of a survivor's source beats it by score or by name |
| `SelectionLaws.RanksAreDense` | bin/tracker/src/process.rs:282-294 | ranks start at one and grow by one exactly where the score drops |
| `SelectionLaws.BestIsMaximal` | bin/tracker/src/process.rs:296-302 | `Best` returns exactly the survivors no candidate outscores, at least one where there is a candidate |
| `SelectionLaws.OrderIrrelevant` | bin/tracker/src/process.rs:251-303 | the same candidates in any arrangement, however often repeated, give the same result where no two different candidates are unbeaten in one source |
| `SelectionLaws.OrderIrrelevantExactly` | bin/tracker/src/process.rs:251-303 | every rearrangement of the candidates has the same selection if and only if no two different ones are unbeaten in one source (in mode `Best`, among those with the top score) |
| `SelectionLaws.EarlierPayloadWins` | bin/tracker/src/process.rs:260-272 | a candidate survives if and only if it is the first of its source that nothing of the source beats; those differ in payload alone |
| `SelectionLaws.Idempotent` | bin/tracker/src/process.rs:251-303 | selecting from what was selected changes nothing |
| `SelectionLaws.SelectionExists` | bin/tracker/src/process.rs:251-303 | every list of candidates has a selection, so the laws are not empty |
| `Process.CollectCandidates` | bin/tracker/src/process.rs:149-185 | the candidates are, by source and name, exactly the transactions whose source gates, whose fingerprint passes and which match |
| `Process.RunSpecializations` | bin/tracker/src/process.rs:140-225 | the rows are one per survivor of a selection among all candidates, or the error of the first survivor that does not lift |
| `ProcessLaws.OutcomeUnique` | bin/tracker/src/process.rs:140-225 | the rows are a function of configuration and payload |
| `ProcessLaws.RowsAreABatch` | bin/tracker/src/process.rs:190-224 | the rows of an event are of one transaction and block and name no source twice |
| `ProcessLaws.RowIsBestOfItsSource` | bin/tracker/src/process.rs:140-225 | every row is of a qualifying transaction, with its score; no qualifying transaction of a source of that name has a higher score, or the same and a name that comes before in the alphabet |
| `ProcessLaws.RowsInOrder` | bin/tracker/src/process.rs:275-279 | rows come by falling score and then in the alphabetical order of their sources |
| `ProcessLaws.ScorePlainly` | bin/tracker/src/process.rs:149-185 | the score is the number of anchors present plus the number of required entries, capped at 2^32 - 1 |
| `ProcessLaws.AllAnswersEveryOffer` | bin/tracker/src/process.rs:140-225 | in mode `All` every source with a qualifying transaction has a row |
| `ProcessLaws.BestAnswersWithTheTop` | bin/tracker/src/process.rs:140-225 | in mode `Best` there is a row where anything qualifies, of rank one and not outscored by any qualifying transaction |
| `RowLaws.RowShowsItsMatch` | bin/tracker/src/process.rs:140-225 | every row of every transaction is of a qualifying template of its source and bears their names; it annotates everything that a sound assignment of the matcher holds and nothing else, what was taken is what the template asks for, every annotation shows its part of the transaction field by field, and each party of the profile has the role that the annotations give it |
| `RowLaws.CandidateLiftsExactly` | bin/tracker/src/process.rs:190-224 | a candidate lifts if and only if its source has a profile whose parties decode and no output delivered for a matched input or reference is undecodable |
| `RowLaws.OutcomeFailsExactly` | bin/tracker/src/process.rs:140-225 | the rows are an error if and only if the transaction does not decode or some survivor does not lift, and the error is that of the first such survivor |
| `SourceOrder.CollectionSettled` | bin/tracker/src/process.rs:149-185 | from sources of different names no tie between candidates is left to position |
| `SourceOrder.SourceOrderIrrelevant` | bin/tracker/src/process.rs:140-225 | where the names of the sources differ, the same sources in any order give the same rows or the same error |
| `Events.CollectResolvedInputs` | bin/tracker/src/process.rs:309-334 | inputs and reference inputs that were delivered with bytes, the last delivery of a reference winning |
| `Events.ResolvedOfMeaning` | bin/tracker/src/process.rs:309-334 | a reference is resolved exactly when some delivery of it carries bytes, and to what the last such delivery carries |
| `Events.Evaluate` | bin/tracker/src/process.rs:22-99 | an event without its parts does nothing, one whose block does not decode or lacks the transaction is fatal, and any other commits its rows and its block, even without rows |
| `Events.ApplyTx` | bin/tracker/src/process.rs:22-104 | the store takes the whole effect of an event or, on an error, none of it |
| `Events.UndoTx` | bin/tracker/src/process.rs:106-129 | the transaction's rows go and the cursor becomes one slot before with the parent's hash, or none; or nothing happens |
| `EventLaws.EffectUnique` | bin/tracker/src/process.rs:22-104 | delivering an event again has the same effect |
| `EventLaws.CommitIsBatch` | bin/tracker/src/process.rs:71-102 | what an event commits is a batch of its own transaction in its own block |
| `EventLaws.Handle` | bin/tracker/src/main.rs:180-192 | one message has the effect of its store operation on the table and the cursor, or fails for the reason stated and changes nothing |
| `EventLaws.Consume` | bin/tracker/src/main.rs:155-195 | on a store that earlier messages were handled on, the message loop leaves the table and the cursor that the store operations of all messages handled leave, and stops exactly at a message that is fatal or that the store fails on |
| `EventLaws.NothingHandled` | bin/tracker/src/main.rs:155-195 | a fresh store is one the message loop can start from |
| `EventLaws.TableIsOfEventsOnChain` | bin/tracker/src/process.rs:22-129 | after every orderly stream the table holds exactly the rows produced by the events whose transactions are on the chain, column by column |
| `EventLaws.UndoReachesParentExactly` | bin/tracker/src/process.rs:106-129 | an undo that is performed leaves the stored cursor at a given parent if and only if the event carries a block that decodes, names the parent by hash and comes one slot after it; without its transaction it leaves the cursor as it was |
| `EventLaws.UndoClearsExactly` | bin/tracker/src/process.rs:106-129 | an undo that is performed clears the stored cursor if and only if the event carries no block that decodes and has a parent; without its transaction it leaves the cursor as it was |
| `EventLaws.FatalExactly` | bin/tracker/src/process.rs:22-104 | an event is fatal if and only if it is not ignored and its block does not decode or lacks its transaction, or the transaction does not decode, or a survivor does not lift |
| `Store.Store.Cursor` | bin/tracker/src/store.rs:81-101 | the point that the stored row denotes, none where there is none or its hash is not 32 bytes |
| `Store.Store.ApplyBlock` | bin/tracker/src/store.rs:105-146 | rows are inserted unless their key is there, the cursor is set and the insertions are counted; where any statement fails nothing changes |
| `Store.Store.UndoTx` | bin/tracker/src/store.rs:150-173 | the rows of the transaction are deleted and counted and the cursor is set or cleared; where any statement fails nothing changes |
| `Store.CursorRoundTrip` | bin/tracker/src/store.rs:88-97 | a stored point is read back as it was, whatever its slot, and different points are stored differently |
| `Store.InsertAllMerges` | bin/tracker/src/store.rs:113-135 | inserting a batch adds it to the table, the table winning where both have a key |
| `Store.BatchFirst` | bin/tracker/src/store.rs:113-135 | within a batch the first row of a key wins, and is there column by column |
| `Store.NewBatchInsertsAll` | bin/tracker/src/store.rs:119-135 | a batch for a transaction that is new never collides: every row is there under its transaction and source with each of its columns, the slot as the unsigned number it was |
| `Store.RedeliveryIsIgnored` | bin/tracker/src/store.rs:103-135 | inserting rows whose keys are known changes nothing |
| `StoreLaws.TableMirrorsChain` | bin/tracker/src/store.rs:105-173 | over every run of applies, redeliveries and undos in which a transaction changes block only after being undone, the table holds exactly the rows of the applied transactions |
| `StoreLaws.EveryRowIsCurrent` | bin/tracker/src/store.rs:105-173 | every row carries the current slot and hash of its transaction's block; every row of every applied transaction is there under its transaction and source, column by column, and no other |
| `StoreLaws.MovedWithoutUndo` | bin/tracker/src/store.rs:119-135 | where a transaction changes block without an undo the table keeps up if and only if it had no rows |
| `StoreLaws.UndoRevertsApply` | bin/tracker/src/store.rs:150-173 | undoing a transaction that was new restores the table |
| `Session.Locate` | bin/tracker/src/main.rs:67-78 | a subscription starts at the intersect, taken to be the first transaction of that block, or at the configured start |
| `Session.BlockStartIsFirst` | bin/tracker/src/main.rs:67-78 | a block that is on the chain starts at its first transaction, so resuming at it skips nothing that was not applied |
| `Session.StreamSession` | bin/tracker/src/main.rs:124-196 | a session ends as its script says (shutdown, reconnect on a closed stream or transient status, fatal otherwise), at the position and with the cursor its script says; however it ends, the store is synced with the chain as far as before or as far as that position; the backoff is reset exactly when a message arrived |
| `SessionOutcomes.StreamEnds` | bin/tracker/src/main.rs:155-195 | a stream ends with the first message that does not come and go: shutdown on a signal, reconnect on a closed stream or on a status of the seven codes listed, fatal on any other status, on a fatal transaction and on a failing store |
| `SessionOutcomes.ReconnectsExactly` | bin/tracker/src/main.rs:132-175 | a session is tried again exactly where the server is unreachable, refuses or breaks off with one of the seven codes, or closes the stream, and nothing failed before |
| `SessionOutcomes.RefusedIsFatalOtherwise` | bin/tracker/src/upstream/retry.rs:14-26 | a subscription that is refused with any other code, or a bad configuration, is fatal and leaves the cursor |
| `Session.DeliverSyncs` | bin/tracker/src/process.rs:22-104 | delivering a transaction that is known leaves the table alone, delivering the next one advances it by its rows and the cursor to its block, and a failed delivery changes nothing |
| `Session.Run` | bin/tracker/src/main.rs:34-107 | from a store synced up to any point, for every script of sessions, which session ends the run, how, where and with which cursor, each session resuming from the cursor of the one before; the store is then synced as far as the furthest of the sessions came, so once every transaction has been applied the table and the cursor are those of an uninterrupted run, however later sessions end; the delays follow the backoff schedule |
| `SessionOutcomes.RunGoesOnExactly` | bin/tracker/src/main.rs:62-105 | a run goes on to its next session exactly where this one is interrupted and no signal comes while it waits |
| `SessionOutcomes.DelayInSeconds` | bin/tracker/src/main.rs:55 | the delays after failures in a row are 1, 2, 4, 8, 16 and from then on 30 seconds |
| `Session.ReachedStays` | bin/tracker/src/main.rs:62-105 | how far a run has come is at least where it began and where its next session ends, whatever follows |
| `Session.FatalStopsEveryRestart` | bin/tracker/src/main.rs:34-107 | a synced store is never past the first fatal transaction, and an undisturbed session stops at it again, wherever it resumes |
| `Session.UndisturbedReachesEnd` | bin/tracker/src/main.rs:155-195 | a session that is not disturbed reaches the end of a chain without fatal transactions, wherever it resumes |
| `Session.UndisturbedRunReachesEnd` | bin/tracker/src/main.rs:34-107 | a run whose last session is not disturbed, and that gets there, reaches the end of a chain without fatal transactions |
| `Session.ResumeIsSafe` | bin/tracker/src/main.rs:67-78 | resuming at the stored cursor skips nothing that was not applied, and what is delivered again leaves the cursor where it is |
| `Session.KeysStay` | bin/tracker/src/store.rs:119-135 | the keys of an applied transaction stay in the table however far the chain is applied |
| `SessionLaws.FreshStoreIsSynced` | bin/tracker/src/main.rs:67-78 | an empty store is synced with every chain |
| `SessionLaws.ChainGrows` | bin/tracker/src/main.rs:62-105 | a store synced up to some point stays synced up to it while the chain grows, so a restarted process can go on |
| `SessionLaws.UninterruptedStoresAll` | bin/tracker/src/process.rs:76-102 | an uninterrupted run stores every row of every transaction, column by column |
| `SessionLaws.SkippingLosesRows` | bin/tracker/src/main.rs:65-78 | dropping out and resuming further on gives the whole table if and only if the skipped transactions have no rows |
| `SessionLaws.BlockStoredExactly` | bin/tracker/src/process.rs:76-102 | of a synced store, all matches of a block are committed if and only if none of its transactions still to come has any |
| `SessionLaws.CursorIsHighestExactly` | bin/tracker/src/process.rs:76-102 | the cursor names the block of the last committed transaction; all blocks before it have their matches committed and nothing later has any; the cursor is the highest block with all its matches committed if and only if no transaction of it that is still to come has matches |
| `SessionLaws.ResumingAfterBlock` | bin/tracker/src/main.rs:65-78 | resuming after a delivered block gives the whole table if and only if that block has all its matches committed |
| `PartialBlock.CursorBlockMayBePartial` | bin/tracker/src/process.rs:76-102 | two events of one block both commit a row, and after the first the cursor names their block while the row of the second is missing |
| `SessionLaws.EventsMakeAChain` | bin/tracker/src/process.rs:22-104 | a stream of apply events is a chain in the sense of the session model, and its effects are determined |
| `Migrations.Database.RunMigrations` | bin/tracker/src/store.rs:207-243 | pending migrations and their records go in together up to the point of interruption; uninterrupted it succeeds if and only if no unrecorded migration was executed before |
| `Migrations.Database.Open` | bin/tracker/src/store.rs:207-243 | opening keeps the executed migrations a prefix of the list, each once, and equal to the recorded ones, loses none, and completes the list unless it is interrupted |
| `Migrations.Database.OpenAll` | bin/tracker/src/store.rs:207-243 | over any number of interrupted opens the executed migrations are a prefix of the list and the recorded ones, and one uninterrupted open completes it for good |
| `Migrations.Database.OpenShipped` | bin/tracker/src/store.rs:207-243 | the shipped migrations have different names, so opening with them completes the list unless it is interrupted |
| `Migrations.PendingAfterPrefix` | bin/tracker/src/store.rs:215-227 | where a prefix is recorded the rest of the list is what is still to run |
| `Migrations.UnrecordedBlocksOpening` | bin/tracker/src/store.rs:229-240 | a migration executed without its record would make the next open run it twice |
| `Backoff.Backoff.NextDelay` | bin/tracker/src/upstream/retry.rs:49-57 | the delay is the scheduled one for the failures since the last reset |
| `Backoff.ScheduledStep` | bin/tracker/src/upstream/retry.rs:49-57 | doubling with overflow check and cap moves the schedule on by one, also where doubling overflows |
| `Backoff.ClosedForm` | bin/tracker/src/upstream/retry.rs:38-62 | the delay after `k` failures is min(initial * 2^k, max) for all `k` if and only if the initial delay is within the cap |
| `Backoff.RunOps` | bin/tracker/src/upstream/retry.rs:38-62 | over every run of failures and resets each delay is the scheduled one for the failures since the last reset |

## Left out

- PrefilterLedger.PrefilterExactnessOnLedger: a policy may still have several mint entries; with one entry for each, mints and burns compete for the order of the entries they share (`MintsAndBurnsDisagree`), so conditions on mints and burns apart are not exact. Templates that use up all 32-byte ids there are (`IdsSuffice`) are excluded, and an output may be both spent and referenced.
- PrefilterExact.RecurringListsExact: beyond 65535 references only the sufficient direction is stated, because the counters wrap and saturate; `ReferenceCountExact` has the condition without a bound.
- Prefilter.PrefilterNecessary: signers, metadata labels, validity, collateral, value policies and extras are not covered, because the matcher never looks at them; `PrefilterExactness` counts requiring any of the first five as a rejection.
- Process.RunSpecializations: the specialized templates and their fingerprints are given; applying arguments to a template (`apply_args`) is not part of this model.
- Events.Evaluate: a block, a transaction and its outputs are given as decoded records or as undecodable; CBOR decoding is not part of this model.
- Session.Run: undo messages are not part of the reconnect model, because the server's behaviour across rollbacks while disconnected is not defined by this code; `EventLaws` covers undo, also over the messages of several sessions. The start is fixed: with the default `intersect = "tip"` the program sends an empty intersect list, and a session that drops before its first commit resumes at a new tip and skips what came between.
- Session.StreamSession: connecting, subscribing and the stream are scripted outcomes without undo messages; gRPC, TLS, tasks and signals are not modelled.
- Session.Locate: that the server starts at the intersect block, inclusively, and knows every block a cursor names is an assumption about the server; the program only chooses the intersect.
- Store.Store.ApplyBlock: SQL text, WAL mode, indexes and `matched_at` are not modelled; a transaction commits as a whole or not at all, and the lifted JSON is kept as the lifted value.
- Migrations.Database.RunMigrations: creating the version table, which is idempotent, and the timestamps of the records are not modelled.
- Matching.AssignMints: the mint loop and the burn loop, which differ in the sign they look for, are one method with a flag.
- Selection.SelectMatches: the rank is an unbounded number, because it never exceeds the number of sources.
- RefParsing.ParseUtxoRef: strings are byte sequences; the hex library is modelled by the digits it accepts.
- Anchors.FromProfile: bech32 decoding is given as a result per party; JSON values other than strings are one case.
- Fnv.Fnv1a64: what is hashed, the serialized template and arguments, is not modelled; neither are `tir_hash` and `args_hash`.
- Lifting.Lift: policy names, redeemers, metadata values and `tir_hash` are placeholders in the program and are left out, as are the asset lists of input and output views beyond their coins.
- Configuration loading, API-key resolution, the upstream filter compiler and exclusion of sources without anchors are short branches and are left out.
- `route_and_lift` and the other one-shot entry points, which repeat fingerprint, match and lift for a single payload, are left out.
