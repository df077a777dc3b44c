# Statement table, leaf tracking and the accident protocol, in Dafny

This project models the stateful cores of a Polkadot-style relay chain and of the parachains
that carry an accident-reporting use case, and proves what those cores promise over whole runs.

* **Statement table** (`Statements`, `StatementTable`, `StatementRuns`, `StatementEvidence`,
  `StatementRefinement`, `StatementVotes`, `StatementFiling`, `StatementAttestation`,
  `StatementTestContext`, `MisbehaviorDrain`): authorities second candidates and vote on them; the
  table collects votes, detects misbehavior, attests candidates and hands out accusations. A run
  is any sequence of imports and drains and ends at the first panic. The table is parameterised by
  a context that interprets candidates arbitrarily; collision-free digests are a stated hypothesis
  wherever they matter, and both the absence of panics and the soundness of accusations are
  characterised by an if-and-only-if.
* **Overseer** (`Overseer`, `OverseerLeaves`, `OverseerDeltas`, `OverseerFreshness`,
  `OverseerListeners`, `OverseerVerdicts`, `OverseerOrder`, `OverseerProcess`): imports,
  finalisations and requests to wait for a head update the leaves, the spans, a
  least-recently-used cache of 28800 heads and the pending listeners, and are broadcast as deltas.
  A run starts from any leaves and is any sequence of events; requesters may give up at any time.
* **Accident protocol** (`CompositeKeys`, `Renault`, `Insurance`, `CrossChain`, `Registry`,
  `CrossChainAgreement`, `CrossChainDelivery`, `InsuranceNumbering`): vehicles report to the
  manufacturer's chain, drivers declare to the insurer's chain, and the chains exchange a request
  and a reply per declaration. The network may delay, reorder, repeat or lose messages.
* **Shard reader** (`ShardReader`): a decoder's input that draws bytes across shards.
* **Metered channel** (`MeteredChannel`): the shared counters of a bounded channel, under any
  interleaving of the atomic steps of its senders and its receiver.
* **Ping** (`Ping`): sequence numbers and outstanding pings.
* Shared vocabulary: `Options`, `Bytes`, `Sets`.

Objects that the program updates in place are classes (`Table`, `DrainMisbehaviors`, `Process`, the
two `Chain` classes, `ShardInput`, `Pallet`). Each of their methods is proved to take the contents
to a function of the old contents, and the theorems are about runs of those functions. What those
functions compute is in turn said from the events or actions of a run alone: the leaves and
announcements, the accusations on file, the registry, the reports, and what each call answers.
Loops are loops with invariants.

Some promises turn out not to hold of the code as it stands; each has a concrete run and an exact
condition.

1. The message of the `panic!` in the statement table argues that membership of the issuer was
   checked before; the check was on the group of the statement's own candidate, the panic on the
   group of the stored one (`StatementRuns.PanickingRun`, `StatementRuns.PanicFreeExactly`).
2. Accusations attach a signature to the stored candidate, which is the one signed only if digests
   bind (`StatementEvidence.MisattributingRun`, `StatementEvidence.EvidenceSoundExactly`); no honest
   authority is accused for that (`StatementEvidence.HonestNeverFiled`). Likewise a second seconding
   can pass for a duplicate (`StatementVotes.UnnoticedConflict`,
   `StatementVotes.ConflictFaultedExactly`), and an implicit vote for one of another candidate
   (`StatementAttestation.ConfusedAttestation`, `StatementAttestation.AttestationExactly`).
3. The insurer documents a count per driver, but reads it under the driver and writes it under the
   vehicle (`InsuranceNumbering.FirstNumberCanBeOne`, `InsuranceNumbering.NextDeclarationExactly`).
4. The meter documents `sent` and `received` as numbers of sends and receives; a `send` dropped
   while awaiting room stays counted (`MeteredChannel.AbandonedSendCounted`,
   `MeteredChannel.QueueLengthExactly`), and polling the end of the stream is counted as a
   receive (`MeteredChannel.EndCounted`, `MeteredChannel.ReceivedExactly`).
5. A ping number that comes round while still outstanding replaces the ping it was given to
   (`Ping.ReuseLosesPing`, `Ping.PingsConservedExactly`).

## Model

| member | source | states |
|---|---|---|
| `StatementTable.Table.constructor` | substrate-blockchain-relay-chain/statement-table/src/generic.rs:295-304 | a new table is empty |
| `StatementTable.Table.Import` | substrate-blockchain-relay-chain/statement-table/src/generic.rs:327-350 | importing a signed statement changes the three maps and answers exactly as `ImportStatement` says, misbehavior being appended to the sender's list; the properties below are about that function |
| `StatementTable.Table.ImportCandidate` | substrate-blockchain-relay-chain/statement-table/src/generic.rs:369-442 | seconding: group check, comparison with the stored proposal, `MultipleCandidates` out of stored state, first proposal and candidate entry, implicit vote; touches proposals and candidates only |
| `StatementTable.Table.ValidityVote` | substrate-blockchain-relay-chain/statement-table/src/generic.rs:444-508 | casting a vote: unknown digest, membership check, the four kinds of clash, duplicate, new vote with its summary; touches votes only |
| `StatementTable.ListVotes` | substrate-blockchain-relay-chain/statement-table/src/generic.rs:246-253 | each voter is listed exactly once, with the attestation its vote stands for, in whatever order the map is visited |
| `StatementTable.Table.GetAttested` | substrate-blockchain-relay-chain/statement-table/src/generic.rs:309-318 | an answer is given exactly if the digest is tracked and its votes reach the group's threshold; it lists each vote once |
| `StatementRuns.RunInvariant` | substrate-blockchain-relay-chain/statement-table/src/generic.rs:369-508 | in every run without a panic: tracked candidates sit under their own digest and group and have an issued vote; every proposal's author has a vote on its digest; voters belong to the group; no misbehavior list is empty; and every candidate, proposal and vote was really submitted in the run |
| `StatementRuns.ImportEffect` | substrate-blockchain-relay-chain/statement-table/src/generic.rs:369-508 | an import changes at most the sender's proposal, the sender's vote on the digest concerned, and a new candidate entry, and only in the way the statement warrants |
| `StatementRuns.RunGrows` | substrate-blockchain-relay-chain/statement-table/src/generic.rs:369-508 | candidates, proposals and votes are never changed or lost as a run goes on |
| `StatementRuns.OneIssuedVote` | substrate-blockchain-relay-chain/statement-table/src/generic.rs:388-441 | an authority holds at most one issued vote in the whole table, with the digest and signature of its stored proposal |
| `StatementRuns.ProposalExists` | substrate-blockchain-relay-chain/statement-table/src/generic.rs:396-408 | the `expect` cannot fail: in every run and every context the stored proposal's digest has a candidate entry |
| `StatementRuns.IssuerMayVote` | substrate-blockchain-relay-chain/statement-table/src/generic.rs:457-463 | an implicit vote passes the second membership check if membership follows from the digest |
| `StatementRuns.PanicFreeExactly` | substrate-blockchain-relay-chain/statement-table/src/generic.rs:369-508 | no run panics if and only if equal digests cannot lead to groups with different members; otherwise two imports panic |
| `StatementRuns.PanickingRun` | substrate-blockchain-relay-chain/statement-table/src/generic.rs:457-463 | the two imports that reach the `panic!` when membership does not follow from the digest |
| `StatementTestContext.TwoGroupsPanic` | substrate-blockchain-relay-chain/statement-table/src/generic.rs:607-613 | in the context of the table's own tests, two authorities of different groups reach the `panic!` by seconding candidates of equal body |
| `StatementTestContext.TestContextPanicFreeExactly` | substrate-blockchain-relay-chain/statement-table/src/generic.rs:600-630 | under the tests' context no run panics if and only if all authorities are in one group |
| `StatementTestContext.TestContextEvidenceSound` | substrate-blockchain-relay-chain/statement-table/src/generic.rs:600-630 | under the tests' context every accusation is genuine short of a panic |
| `StatementEvidence.EvidenceSound` | substrate-blockchain-relay-chain/statement-table/src/generic.rs:327-508 | if no authority belongs to the groups of two candidates of one digest, every accusation on file consists of statements its authority submitted, and they show what they are filed as |
| `StatementEvidence.MisattributingRun` | substrate-blockchain-relay-chain/statement-table/src/generic.rs:476-505 | otherwise two imports by one authority file its signature on a candidate it never signed |
| `StatementEvidence.EvidenceSoundExactly` | substrate-blockchain-relay-chain/statement-table/src/generic.rs:327-508 | accusations are genuine in every run if and only if no authority belongs to the groups of two candidates of one digest |
| `StatementEvidence.HonestNeverFiled` | substrate-blockchain-relay-chain/statement-table/src/generic.rs:327-508 | nobody is framed: in every run and every context, an authority that signed nothing conflicting and nothing outside its group is never on file, whether or not digests bind |
| `StatementEvidence.EquivocationCaught` | substrate-blockchain-relay-chain/statement-table/src/generic.rs:388-414 | of two in-group secondings with different digests, one is filed as `MultipleCandidates` at the moment it is imported, drains or not |
| `StatementEvidence.EquivocationFiledExactly` | substrate-blockchain-relay-chain/statement-table/src/generic.rs:327-508 | in every context and every run without drains, an authority is on file for multiple candidates if and only if it seconded two digests within its groups |
| `StatementRefinement.TableIsComprehension` | substrate-blockchain-relay-chain/statement-table/src/generic.rs:369-508 | after any run of non-conflicting, in-group statements that name no two candidates of one digest and in which validity votes follow a seconding, proposals, candidates and votes are comprehensions over the set of statements imported, and nothing is on file |
| `StatementRefinement.OrderIrrelevant` | substrate-blockchain-relay-chain/statement-table/src/generic.rs:369-508 | two such runs over the same statements, in any order and with any repetition, end in the same table |
| `StatementVotes.VotesConserved` | substrate-blockchain-relay-chain/statement-table/src/generic.rs:327-508 | the votes in the table are as many as the imports that returned a summary |
| `StatementVotes.SummaryOneVote` | substrate-blockchain-relay-chain/statement-table/src/generic.rs:444-508 | a summary means exactly one new vote, the sender's, and reports the group and number of votes there now are |
| `StatementVotes.NoSummaryNoVote` | substrate-blockchain-relay-chain/statement-table/src/generic.rs:327-350 | an import that returns no summary changes no vote |
| `StatementVotes.ReplayIgnored` | substrate-blockchain-relay-chain/statement-table/src/generic.rs:444-508 | importing an accepted statement again, however much later, changes nothing at all |
| `StatementVotes.ConflictFaulted` | substrate-blockchain-relay-chain/statement-table/src/generic.rs:444-508 | if no authority belongs to the groups of two candidates of one digest, then once a statement was accepted any other statement of its sender on the same digest is filed as misbehavior, however much later |
| `StatementVotes.ConflictFaultedExactly` | substrate-blockchain-relay-chain/statement-table/src/generic.rs:444-508 | that holds in every run if and only if no authority belongs to the groups of two candidates of one digest |
| `StatementVotes.UnnoticedConflict` | substrate-blockchain-relay-chain/statement-table/src/generic.rs:476-505 | otherwise seconding two candidates of one digest with one signature is taken for a duplicate |
| `StatementFiling.FiledIsHistory` | substrate-blockchain-relay-chain/statement-table/src/generic.rs:341-349 | in every run what is on file against an authority is the accusation of each of its faulted imports since the last drain, once and in order |
| `StatementFiling.UnauthorizedExactly` | substrate-blockchain-relay-chain/statement-table/src/generic.rs:457-473 | in every run a statement is faulted as unauthorized if and only if its sender is outside the group of the candidate it seconds, or of the one tracked under the digest it votes on; the accusation is the statement itself |
| `StatementFiling.UnauthorizedOnFile` | substrate-blockchain-relay-chain/statement-table/src/generic.rs:341-349 | and it stays on file until the next drain |
| `StatementFiling.ConflictAccused` | substrate-blockchain-relay-chain/statement-table/src/generic.rs:476-505 | if digests bind, a second statement on a digest is filed as exactly what it is: outside the group, a second candidate next to the stored proposal, or the two statements in order |
| `StatementAttestation.AttestationReal` | substrate-blockchain-relay-chain/statement-table/src/generic.rs:236-260 | in every run and every context an attested candidate was seconded under its digest, lists at least the threshold of distinct members of its group, and each of them submitted a statement on that digest of the kind and with the signature it is listed with |
| `StatementAttestation.AttestationPermanent` | substrate-blockchain-relay-chain/statement-table/src/generic.rs:309-350 | once attested, a candidate stays attested, unchanged and with at least the same votes |
| `StatementAttestation.AttestationExactly` | substrate-blockchain-relay-chain/statement-table/src/generic.rs:236-260 | in every run each implicit vote listed is a seconding of the very candidate attested, if and only if no set of voters large enough to attest a candidate holds two authorities, one of whom may second another candidate of its digest |
| `StatementAttestation.ConfusedAttestation` | substrate-blockchain-relay-chain/statement-table/src/generic.rs:236-260 | otherwise a run whose attestation lists an authority as having seconded a candidate it never signed |
| `MisbehaviorDrain.DrainMisbehaviors.constructor` | substrate-blockchain-relay-chain/statement-table/src/generic.rs:542-546 | an iterator starts with all entries pending |
| `MisbehaviorDrain.DrainMisbehaviors.MaybeItem` | substrate-blockchain-relay-chain/statement-table/src/generic.rs:548-552 | yields the next item of the authority in progress, and none exactly if that authority has none left |
| `MisbehaviorDrain.DrainMisbehaviors.Next` | substrate-blockchain-relay-chain/statement-table/src/generic.rs:557-566 | yields the first pending item; stops exactly at the end or at an entry with an empty list |
| `MisbehaviorDrain.Exhaust` | substrate-blockchain-relay-chain/statement-table/src/generic.rs:554-567 | iterating to the first `None` terminates and yields everything pending if no list is empty |
| `MisbehaviorDrain.DrainAll` | substrate-blockchain-relay-chain/statement-table/src/generic.rs:365-367 | draining empties the record and yields all entries in the order the map is visited |
| `MisbehaviorDrain.EnumerationReports` | substrate-blockchain-relay-chain/statement-table/src/generic.rs:518-535 | each authority's misbehavior comes out exactly once, in the order recorded, as one uninterrupted stretch |
| `MisbehaviorDrain.DrainComplete` | substrate-blockchain-relay-chain/statement-table/src/generic.rs:557-566 | in every reachable table no list is empty, so a drain reports for each authority exactly what is on file |
| `OverseerProcess.Process.constructor` | substrate-blockchain-relay-chain/node/service/src/overseer.rs:289-293 | an overseer starts without leaves, spans, known heads, listeners or broadcasts |
| `OverseerProcess.Process.NotifyLeaves` | substrate-blockchain-relay-chain/node/overseer/src/lib.rs:714-722 | the startup loop activates and announces each given leaf in turn |
| `OverseerProcess.Process.BlockImported` | substrate-blockchain-relay-chain/node/overseer/src/lib.rs:770-801 | import: ignored if already a leaf; otherwise the block becomes a leaf with its number, its parent stops being one, then clean-up, and one update unless it is empty |
| `OverseerProcess.Process.BlockFinalized` | substrate-blockchain-relay-chain/node/overseer/src/lib.rs:803-832 | finalisation: the leaves that stay are the block and those above it, with their numbers; announces finality, then the pruned leaves if any, each once in some order |
| `OverseerProcess.Process.Prune` | substrate-blockchain-relay-chain/node/overseer/src/lib.rs:806-815 | the leaves noted are exactly those at or below the block other than the block itself, each once; the others are retained |
| `OverseerProcess.Process.OnHeadActivated` | substrate-blockchain-relay-chain/node/overseer/src/lib.rs:836-869 | activation of a supported head: listeners answered, span linked to the parent's, cache refreshed, status from the cache as it was |
| `OverseerProcess.Process.AnswerListeners` | substrate-blockchain-relay-chain/node/overseer/src/lib.rs:846-851 | every listener of the head whose requester is there is sent one answer, in order, and none of the head's listeners is pending any more |
| `OverseerProcess.Process.Send` | substrate-blockchain-relay-chain/node/overseer/src/lib.rs:847-850 | one send: an answer goes out unless the requester is gone, which is not an error |
| `OverseerProcess.Process.OnHeadDeactivated` | substrate-blockchain-relay-chain/node/overseer/src/lib.rs:871-875 | deactivation drops the head's listeners and its span |
| `OverseerProcess.Process.CleanUpExternalListeners` | substrate-blockchain-relay-chain/node/overseer/src/lib.rs:877-883 | listeners whose requester is gone are dropped, and heads left without any |
| `OverseerProcess.Process.HandleExternalRequest` | substrate-blockchain-relay-chain/node/overseer/src/lib.rs:885-903 | a request is answered at once if the head is known, without refreshing the cache, and queued otherwise |
| `OverseerDeltas.DeltasReplayState` | substrate-blockchain-relay-chain/node/overseer/src/lib.rs:714-875 | after any run, replaying all broadcast updates gives exactly the active leaves that support parachains, with their numbers, and those are exactly the leaves with a span |
| `OverseerDeltas.ImportInStep` | substrate-blockchain-relay-chain/node/overseer/src/lib.rs:770-801 | one import keeps replayed updates, active leaves and spans in step |
| `OverseerDeltas.FinalizeInStep` | substrate-blockchain-relay-chain/node/overseer/src/lib.rs:803-832 | one finalisation keeps them in step, in whatever order leaves are pruned |
| `OverseerLeaves.LeavesFromEvents` | substrate-blockchain-relay-chain/node/overseer/src/lib.rs:714-832 | in every run the active leaves are those the events make: start leaves, each imported block in place of its parent, and of these only what is above a finalised block or is that block |
| `OverseerLeaves.KnownLeafIgnored` | substrate-blockchain-relay-chain/node/overseer/src/lib.rs:770-777 | importing a block that is a leaf already changes nothing at all |
| `OverseerLeaves.ImportAnnounced` | substrate-blockchain-relay-chain/node/overseer/src/lib.rs:779-800 | in every run a new block is announced in one update: activated if and only if it supports parachains, with its hash, number and a span following its parent's; deactivating exactly the parent, if that was a leaf; and nothing if both are empty |
| `OverseerLeaves.FinalityAnnounced` | substrate-blockchain-relay-chain/node/overseer/src/lib.rs:803-832 | in every run finality is announced, followed by one update with exactly the leaves at or below the block other than the block itself, each once, if there are any |
| `OverseerLeaves.StartAnnounced` | substrate-blockchain-relay-chain/node/overseer/src/lib.rs:714-722 | at startup each supported leaf is announced, in order, with its number and no span to follow, and nothing else is |
| `OverseerLeaves.RequestsAreQuiet` | substrate-blockchain-relay-chain/node/overseer/src/lib.rs:885-903 | requests announce nothing and touch neither leaves, spans nor the cache |
| `OverseerFreshness.CachedExactly` | substrate-blockchain-relay-chain/node/overseer/src/lib.rs:118 | a head is in a cache of capacity n if and only if fewer than n distinct heads were activated since it last was |
| `OverseerFreshness.PutIsRecency` | substrate-blockchain-relay-chain/node/overseer/src/lib.rs:862 | refreshing and evicting keeps the cache the front of the recency order of all activations |
| `OverseerFreshness.FreshExactly` | substrate-blockchain-relay-chain/node/overseer/src/lib.rs:862-868 | in every run a head is announced fresh if and only if it is not among the last 28800 distinct heads announced before |
| `OverseerFreshness.FreshOnce` | substrate-blockchain-relay-chain/node/overseer/src/lib.rs:862-868 | in a run of at most 28800 distinct heads none is announced fresh twice |
| `OverseerListeners.ListenerFate` | substrate-blockchain-relay-chain/node/overseer/src/lib.rs:836-903 | in every run each request is pending or settled but not both, settled in one way only, pending only for its own head and only while that head is not known; answered only if the head was activated, dropped only if the head was deactivated or the requester gave up; and the number of answers sent to it is one if it was answered and zero otherwise |
| `OverseerListeners.OnlyRequestersAnswered` | substrate-blockchain-relay-chain/node/overseer/src/lib.rs:836-903 | answers are sent only to listeners that asked |
| `OverseerListeners.FateFinal` | substrate-blockchain-relay-chain/node/overseer/src/lib.rs:836-903 | what became of a request never changes |
| `OverseerOrder.ListenersInOrder` | substrate-blockchain-relay-chain/node/overseer/src/lib.rs:877-903 | in every run the listeners kept for a head are in the order in which they asked, and no head is kept without one |
| `OverseerOrder.AnswersInOrder` | substrate-blockchain-relay-chain/node/overseer/src/lib.rs:846-851 | when a block is activated, exactly the listeners pending for it whose requester is there are answered, in the order in which they asked |
| `OverseerVerdicts.FateExactly` | substrate-blockchain-relay-chain/node/overseer/src/lib.rs:836-903 | the fate of a request whose requester stays: answered if the head was known; otherwise answered or dropped as the first announcement about the head since the request activates or deactivates it, and pending exactly as long as there is none |
| `OverseerVerdicts.FateAfterGivingUp` | substrate-blockchain-relay-chain/node/overseer/src/lib.rs:836-903 | the fate of a request whose requester gives up after asking: the one decided before that, if any; otherwise dropped exactly at the first new block or pruning of its head after that, never answered, and pending until then |
| `OverseerVerdicts.FateIfGoneBefore` | substrate-blockchain-relay-chain/node/overseer/src/lib.rs:836-903 | the fate of a request whose requester was gone before it arrived: dropped at once if the head is known, otherwise at the first new block or pruning of its head, and pending until then |
| `CompositeKeys.CreateCompositeKey` | common-parachain-node/pallets/sim_renault_accident/src/lib.rs:292-300 | the key is the hash of the parts in order, one after the other |
| `CompositeKeys.LittleEndianRoundTrip` | common-parachain-node/pallets/sim_renault_accident/src/lib.rs:162 | a 32-bit number is recovered from its little-endian bytes |
| `CompositeKeys.KeyLayout` | common-parachain-node/pallets/sim_renault_accident/src/lib.rs:159-163 | the key is the hash of the 32 bytes of the account followed by the four bytes of the number, least significant first |
| `CompositeKeys.KeyInputInjective` | common-parachain-node/pallets/sim_renault_accident/src/lib.rs:160-163 | the bytes hashed determine the account and the number |
| `Renault.Chain.constructor` | common-parachain-node/pallets/sim_renault/src/lib.rs:203-212 | genesis: the configured account is a factory, and an initialised vehicle of its own |
| `Renault.Chain.AddFactory` | common-parachain-node/pallets/sim_renault/src/lib.rs:99-117 | only root adds factories, and each once |
| `Renault.Chain.AddVehicle` | common-parachain-node/pallets/sim_renault/src/lib.rs:125-146 | only a known factory registers vehicles, and each once |
| `Renault.Chain.Initialize` | common-parachain-node/pallets/sim_renault/src/lib.rs:154-172 | only a registered vehicle initialises itself |
| `Renault.Chain.Report` | common-parachain-node/pallets/sim_renault_accident/src/lib.rs:135-187 | an initialised vehicle's report is stored under the key of its current count, which then moves up by one, wrapping at 2^32 |
| `Renault.Chain.Fetch` | common-parachain-node/pallets/sim_renault_accident/src/lib.rs:304-323 | number 0 is refused; number n looks up the key numbered n - 1 |
| `Renault.Chain.AnswerRequest` | common-parachain-node/pallets/sim_renault_accident/src/lib.rs:192-260 | only a sibling chain is answered, for an initialised vehicle with that accident, and if the reply can be sent |
| `Renault.Chain.CheckIpfs` | common-parachain-node/pallets/sim_renault_accident/src/lib.rs:269-288 | a status is set only for data already recorded |
| `CrossChain.RunDense` | common-parachain-node/pallets/sim_renault_accident/src/lib.rs:143-187 | in every run of both chains in which no two inputs hashed collide, the stored keys are exactly key(v, i) for i below the number of v's reports, in order of reporting, the counter is that number modulo 2^32, and only initialised vehicles have reports |
| `CrossChain.ReportsRetrievable` | common-parachain-node/pallets/sim_renault_accident/src/lib.rs:304-323 | in every run in which no two inputs hashed collide (the one asked about included), asking for accident n of v returns v's n-th report for 1 <= n <= the number of reports, and the right error otherwise |
| `CrossChain.ReportRefusedExactly` | common-parachain-node/pallets/sim_renault_accident/src/lib.rs:165-169 | in every run in which no two inputs hashed collide (the one of the report included), a vehicle's report is refused as already stored if and only if it has made 2^32 reports |
| `CrossChain.RunRegistered` | common-parachain-node/pallets/sim_renault/src/lib.rs:99-212 | in every run initialised vehicles are registered and registered vehicles belong to known factories |
| `CrossChain.ReporterIsRegistered` | common-parachain-node/pallets/sim_renault/src/lib.rs:99-212 | in every run, for any hash, whoever has reported is an initialised, registered vehicle of a known factory |
| `Registry.RegistryFromActions` | common-parachain-node/pallets/sim_renault/src/lib.rs:99-212 | in every run, for any hash, the factories are those of genesis and of root, the owner of a vehicle is the first known factory to register it, and initialised are exactly the vehicles that started themselves after that |
| `Registry.RegistryAnswers` | common-parachain-node/pallets/sim_renault/src/lib.rs:99-172 | how each call of the registry is answered, from the actions of the run |
| `Registry.RenaultOrigins` | common-parachain-node/pallets/sim_renault_accident/src/lib.rs:135-198 | every call refuses the wrong kind of origin and changes nothing |
| `CrossChainDelivery.RecordsAreReports` | common-parachain-node/pallets/sim_renault_accident/src/lib.rs:143-187 | in every run in which no two inputs hashed collide, what is recorded for a vehicle is the data of its reports since it was initialised, in order, up to 2^32 |
| `CrossChainDelivery.RecordsNumbered` | common-parachain-node/pallets/sim_renault_accident/src/lib.rs:180-185 | in every run, for any hash, records are numbered by their position among the vehicle's records, and the counter gives the next |
| `CrossChainDelivery.ReportAnswered` | common-parachain-node/pallets/sim_renault_accident/src/lib.rs:143-186 | without collisions a report is answered with success if and only if the vehicle is initialised and has made fewer than 2^32; otherwise with the right error |
| `CrossChainDelivery.ReportThenFetch` | common-parachain-node/pallets/sim_renault_accident/src/lib.rs:304-323 | without collisions, what a vehicle has just reported is found under the next number |
| `CrossChainDelivery.FetchReturnsReport` | common-parachain-node/pallets/sim_renault_accident/src/lib.rs:304-323 | without collisions, asking for accident n returns the data of the vehicle's n-th report, from the actions of the run |
| `CrossChainDelivery.StatusFromActions` | common-parachain-node/pallets/sim_renault_accident/src/lib.rs:177-178 | without collisions, data is unchecked when reported and then has the latest verdict of a signed account; nothing else has a status |
| `CrossChainDelivery.VerdictAnswered` | common-parachain-node/pallets/sim_renault_accident/src/lib.rs:269-288 | without collisions, a verdict is taken if and only if the data was reported |
| `CrossChainDelivery.RequestAnswered` | common-parachain-node/pallets/sim_renault_accident/src/lib.rs:192-260 | without collisions, how a sibling chain is answered, from the actions of the run: each error in its case, and otherwise the n-th report |
| `CrossChainDelivery.RequestHandled` | common-parachain-node/pallets/sim_renault_accident/src/lib.rs:215-243 | without collisions, a request that arrives is replied to if and only if the accident was reported and the reply can be sent, with the reported data; neither chain changes |
| `Insurance.Chain.constructor` | common-parachain-node/pallets/sim_insurance/src/lib.rs:164-185 | genesis: the configured driver is subscribed |
| `Insurance.Chain.Subscribe` | common-parachain-node/pallets/sim_insurance/src/lib.rs:121-135 | any signed account becomes a subscribed driver |
| `Insurance.Chain.Report` | common-parachain-node/pallets/sim_insurance_accident/src/lib.rs:128-225 | a subscribed driver's declaration is stored under the driver's key and the counter it finds; the incremented counter is written under the vehicle; writes stand when the request cannot be sent |
| `Insurance.Chain.Receive` | common-parachain-node/pallets/sim_insurance_accident/src/lib.rs:230-266 | data from a sibling chain is stored under the vehicle's key unless something already is |
| `CrossChainAgreement.RunTraced` | common-parachain-node/pallets/sim_insurance_accident/src/lib.rs:136-258 | in every run, with no assumption on the hash: each reply in flight answers a request and carries the record under the key it asked for; stored data came in a reply; requests were declared; declarations are by subscribed drivers and stand under the driver's key |
| `CrossChainAgreement.NeverOverwritten` | common-parachain-node/pallets/sim_insurance_accident/src/lib.rs:161-171 | accident records, received data and declarations are never overwritten or removed, from any state on |
| `CrossChainAgreement.RepliesAgree` | common-parachain-node/pallets/sim_renault_accident/src/lib.rs:216-227 | in every run in which no two inputs hashed collide, under delay, reordering, repetition and loss, any reply in flight or stored for (v, n) has 1 <= n <= the number of v's reports and is v's n-th report |
| `CrossChainAgreement.StoredDataAgrees` | common-parachain-node/pallets/sim_insurance_accident/src/lib.rs:246-258 | in every run in which no two inputs hashed collide (the one looked up included), data found under key(v, n) at the insurer is v's n-th report, and n >= 1 |
| `CrossChainAgreement.Traceable` | common-parachain-node/pallets/sim_insurance_accident/src/lib.rs:128-258 | every request, reply and stored datum names an accident that a subscribed driver has declared, and the declaration stands |
| `Registry.SubscribersFromActions` | common-parachain-node/pallets/sim_insurance/src/lib.rs:121-147 | in every run the subscribed drivers are those of genesis and those who signed up |
| `Registry.InsuranceOrigins` | common-parachain-node/pallets/sim_insurance_accident/src/lib.rs:136-237 | every call refuses the wrong kind of origin and changes nothing |
| `CrossChainDelivery.DeclarationHandled` | common-parachain-node/pallets/sim_insurance_accident/src/lib.rs:136-224 | in every run a subscribed driver's declaration under a free key is recorded with the vehicle and number declared, moves the counter of the vehicle, and asks for that data if it can be sent; every other one is refused with the right error and changes nothing |
| `CrossChainDelivery.ReplyStored` | common-parachain-node/pallets/sim_insurance_accident/src/lib.rs:252-264 | in every run a reply delivered for a key the insurer does not hold is taken, and exactly its data is stored under that key |
| `CrossChainDelivery.DeliveredForGood` | common-parachain-node/pallets/sim_insurance_accident/src/lib.rs:230-266 | without collisions, once a reply was delivered the insurer holds the vehicle's report under its key, for good |
| `CrossChainDelivery.StoredIsReported` | common-parachain-node/pallets/sim_insurance_accident/src/lib.rs:246-258 | without collisions, what is stored under key(v, n) is the data of v's n-th report, from the actions of the run |
| `CrossChainDelivery.DeclarationAnswered` | common-parachain-node/pallets/sim_insurance_accident/src/lib.rs:128-266 | without collisions, a declaration that is taken, of an accident reported by the time its request arrives, ends with the reported data stored once the reply arrives, whatever happens in between and after |
| `InsuranceNumbering.RunNumbered` | common-parachain-node/pallets/sim_insurance_accident/src/lib.rs:147-178 | in every run the counter a driver finds is one more than the number of the latest declaration naming that driver as the vehicle, or zero, and declarations carry the counter found |
| `InsuranceNumbering.RefusedExactly` | common-parachain-node/pallets/sim_insurance_accident/src/lib.rs:161-165 | in every run in which the keys of declarations do not collide, a subscribed driver's declaration is refused as already stored if and only if the driver has one of that number |
| `InsuranceNumbering.FirstNumberCanBeOne` | common-parachain-node/pallets/sim_insurance_accident/src/lib.rs:147-178 | numbering per driver is not gap-free: a run in which a driver's first number is one |
| `InsuranceNumbering.NextDeclarationExactly` | common-parachain-node/pallets/sim_insurance_accident/src/lib.rs:147-225 | in every run in which the keys of declarations do not collide, the next declaration of a driver with k gap-free ones who finds counter m is refused exactly if m < k; otherwise it is recorded unless a failed request undoes it, and then numbering stays gap-free exactly if m = k |
| `InsuranceNumbering.GaplessExactly` | common-parachain-node/pallets/sim_insurance_accident/src/lib.rs:147-178 | over a whole run: a driver's numbers are 0, 1, 2, ... if and only if, whenever it declared, the latest declaration naming it as the vehicle was numbered just below the declarations it had made |
| `InsuranceNumbering.GaplessForOwnVehicle` | common-parachain-node/pallets/sim_insurance_accident/src/lib.rs:147-178 | in particular a driver whose declarations only involve itself is numbered without gaps |
| `InsuranceNumbering.SecondDeclarationRefused` | common-parachain-node/pallets/sim_insurance_accident/src/lib.rs:147-165 | in particular a driver no declaration names as a vehicle can declare once and never again |
| `ShardReader.ShardInput.constructor` | substrate-blockchain-relay-chain/erasure-coding/src/lib.rs:294-299 | a new input has all bytes of all shards unread |
| `ShardReader.ShardInput.TakeShard` | substrate-blockchain-relay-chain/erasure-coding/src/lib.rs:314-318 | takes the shard in progress or the next one, losing no byte; none only if nothing is left |
| `ShardReader.ShardInput.ReadShard` | substrate-blockchain-relay-chain/erasure-coding/src/lib.rs:314-332 | one turn of the loop copies the next unread bytes to their place and moves past them, or uses up a shard |
| `ShardReader.ShardInput.Fill` | substrate-blockchain-relay-chain/erasure-coding/src/lib.rs:309-333 | the loop terminates having copied as many bytes as fit or remain |
| `ShardReader.ShardInput.Read` | substrate-blockchain-relay-chain/erasure-coding/src/lib.rs:306-341 | a read delivers the next unread bytes, leaves the rest of the buffer alone, succeeds exactly if enough remain, and lowers the remaining length by what it read |
| `ShardReader.ReadOne` | substrate-blockchain-relay-chain/erasure-coding/src/lib.rs:306-341 | a read into a fresh buffer delivers the next bytes, and keeps a remaining length that is the number of unread bytes so |
| `ShardReader.ReadMany` | substrate-blockchain-relay-chain/erasure-coding/src/lib.rs:306-341 | any sequence of reads, over any shards including empty ones, delivers what `Reads` says; a remaining length that starts as the number of unread bytes stays so |
| `ShardReader.ReadsPartition` | substrate-blockchain-relay-chain/erasure-coding/src/lib.rs:306-341 | the pieces of successive reads followed by what is left are the joined shards: nothing lost, repeated or reordered |
| `ShardReader.ReadSucceedsExactly` | substrate-blockchain-relay-chain/erasure-coding/src/lib.rs:335-340 | a read after others succeeds if and only if it asks for nothing or the sizes up to it fit in the shards |
| `MeteredChannel.RunConserves` | substrate-blockchain-relay-chain/node/metered-channel/src/bounded.rs:141-194 | after any interleaving of any number of senders and the receiver: `sent` is accepted messages plus sends in progress plus abandoned ones; accepted messages are the delivered ones followed by the queue, in order; deliveries and refusals are accounted for by `received` and `blocked` |
| `MeteredChannel.SentNeverNegative` | substrate-blockchain-relay-chain/node/metered-channel/src/bounded.rs:186-193 | `sent` is never below the messages delivered, so taking back a send never wraps |
| `MeteredChannel.QueueLengthExactly` | substrate-blockchain-relay-chain/node/metered-channel/src/bounded.rs:157-178 | with no send in progress, `sent` minus delivered items is the queue length if and only if no step of the run dropped a `send` that was awaiting room |
| `MeteredChannel.AbandonedSendCounted` | substrate-blockchain-relay-chain/node/metered-channel/src/bounded.rs:168-174 | a run in which a dropped `send` stays counted: one message accepted and delivered, nothing in progress, `sent` two |
| `MeteredChannel.ReceivedExactly` | substrate-blockchain-relay-chain/node/metered-channel/src/bounded.rs:62-91 | with every delivery noted, `received` counts deliveries if and only if no step of the run polled the stream after its end |
| `MeteredChannel.EndCounted` | substrate-blockchain-relay-chain/node/metered-channel/src/bounded.rs:62-91 | a run in which polling the end is counted: one receive, no delivery |
| `MeteredChannel.BlockedExactly` | substrate-blockchain-relay-chain/node/metered-channel/src/bounded.rs:186-190 | with no send in progress, `blocked` is the number of sends that met a full queue |
| `MeteredChannel.SendersFollow` | substrate-blockchain-relay-chain/node/metered-channel/src/bounded.rs:157-194 | in every interleaving a sender is only where its latest send leads; in particular only a `send`, never a `try_send`, waits, and only after a full queue |
| `MeteredChannel.RefusalExactly` | substrate-blockchain-relay-chain/node/metered-channel/src/bounded.rs:161-168 | after a refusal a send waits if and only if it may and the queue was full, and its count is taken back |
| `MeteredChannel.AcceptsExactly` | substrate-blockchain-relay-chain/node/metered-channel/src/bounded.rs:181-194 | what the queue accepts is the message of the sender's latest send, at the end |
| `MeteredChannel.ClosedSendUndone` | substrate-blockchain-relay-chain/node/metered-channel/src/bounded.rs:181-194 | a send on a closed channel leaves everything as it was |
| `MeteredChannel.FullTrySendUndone` | substrate-blockchain-relay-chain/node/metered-channel/src/bounded.rs:181-194 | a `try_send` on a full queue leaves everything as it was but for the count of blocked sends |
| `MeteredChannel.FailedWaitUndone` | substrate-blockchain-relay-chain/node/metered-channel/src/bounded.rs:169-174 | an awaited send that fails takes back its count |
| `MeteredChannel.ReceiveExactly` | substrate-blockchain-relay-chain/node/metered-channel/src/bounded.rs:62-91 | receiving hands out the oldest message and counts it |
| `Ping.Pallet.constructor` | common-parachain-node/pallets/ping/src/lib.rs:56-67 | nothing stored at first |
| `Ping.Pallet.OnFinalize` | common-parachain-node/pallets/ping/src/lib.rs:86-114 | every target is pinged in order, each under the next number |
| `Ping.Pallet.SendPing` | common-parachain-node/pallets/ping/src/lib.rs:88-112 | one ping: the number is used up whether or not it is sent; only a sent one is recorded |
| `Ping.Pallet.OnPong` | common-parachain-node/pallets/ping/src/lib.rs:188-204 | a pong settles the outstanding ping of its number and reports its age, or is reported unknown |
| `Ping.Pallet.AddMany` | common-parachain-node/pallets/ping/src/lib.rs:127-138 | appends a target as many times as asked |
| `Ping.Pallet.RemoveOne` | common-parachain-node/pallets/ping/src/lib.rs:141-149 | swap-removes the first target of a chain |
| `Ping.Pallet.RemoveAll` | common-parachain-node/pallets/ping/src/lib.rs:151-160 | retains the targets of other chains |
| `Ping.StopFirstExactly` | common-parachain-node/pallets/ping/src/lib.rs:141-149 | the chain's first target goes and the last target takes its place, or nothing changes |
| `Ping.OthersExactly` | common-parachain-node/pallets/ping/src/lib.rs:151-160 | exactly the chain's targets go |
| `Ping.OthersAppend` | common-parachain-node/pallets/ping/src/lib.rs:151-160 | those that stay keep their order |
| `Ping.TargetsExactly` | common-parachain-node/pallets/ping/src/lib.rs:120-160 | how each action changes the list of targets; pings and pongs leave it alone |
| `Ping.PingAllExactly` | common-parachain-node/pallets/ping/src/lib.rs:86-114 | each target is pinged once per block, in order, with its own payload, under consecutive numbers modulo 2^32, and the event says so |
| `Ping.PongExactly` | common-parachain-node/pallets/ping/src/lib.rs:188-204 | in every run a pong reports one event: the age of the latest ping of its number if one is outstanding, and an unknown pong otherwise; that ping is then outstanding no more |
| `Ping.BlockIsHistory` | common-parachain-node/pallets/ping/src/lib.rs:86-114 | the block number is the number of blocks begun |
| `Ping.RunConserves` | common-parachain-node/pallets/ping/src/lib.rs:86-204 | below 2^32 attempts: pings sent are those outstanding plus those answered; each number is sent at most once, answered at most once and only if sent, and lies between 1 and the count; every reported delay is the age of the ping it answers |
| `Ping.PingsConservedExactly` | common-parachain-node/pallets/ping/src/lib.rs:86-204 | in every run, pings sent are those outstanding plus those answered if and only if between any two pings of one number there is an answer to it |
| `Ping.ReuseLosesPing` | common-parachain-node/pallets/ping/src/lib.rs:86-114 | after more than 2^32 unanswered pings a number has been reused and fewer pings are outstanding or answered than were sent |

## Left out

- StatementTable.Table.GetAttested: the order of the listed votes, which is the hash map's, is not specified.
- StatementRefinement.TableIsComprehension: is about statements that name no two candidates of one digest; otherwise the stored candidate is the one seconded first, so the order matters.
- CrossChainAgreement.RepliesAgree: assumes that replies are sent only by the manufacturer's `request_data`; the insurer's `receive_data` takes data from any sibling chain, and other siblings are not part of this model.
- CrossChainAgreement.StoredDataAgrees: rests on the same assumption about who sends replies.
- CrossChain.RunDense: assumes no SHA-256 collision among the inputs hashed in the run, and so do CrossChain.ReportsRetrievable, CrossChain.ReportRefusedExactly, CrossChainAgreement.RepliesAgree, CrossChainAgreement.StoredDataAgrees, InsuranceNumbering.RefusedExactly and InsuranceNumbering.NextDeclarationExactly, and in CrossChainDelivery every lemma whose row says "without collisions", including the input asked about; SHA-256 itself (section 6.2 of FIPS 180-4) is an arbitrary function, and its padding and rounds are not modelled.
- Insurance.Chain.Report: lets the writes of a declaration stand when the request cannot be sent; whether the framework undoes them is not visible in the pallet, so the theorems about runs take the choice as a parameter of each call and hold for both.
- Ping.RunConserves: is stated below 2^32 attempts, where numbers start to repeat; `Ping.PingsConservedExactly` has no bound.
- OverseerDeltas.DeltasReplayState: assumes that every broadcast succeeds; a failed one ends the overseer.
- OverseerListeners.ListenerFate: a response channel is used for one request only, as its type enforces in the program.
- MeteredChannel.RunConserves: senders and receiver are a transition system over atomic steps on values, not objects; when the inner queue is full is left open, so every real interleaving is included; what becomes of queued messages when the receiver itself is dropped is not modelled.
- 32-bit counters wrap as in a build without overflow checks; block numbers, vote counts and the channel's counters are unbounded.
- Signatures are not verified by the table and are opaque here; the candidate, digest and group types are records over natural numbers.
- The overseer's message routing and gating, task spawning, metrics, debug assertions and what a span records besides the span it follows from.
- The leaf hash map's order of visiting: finalisation prunes in an arbitrary order.
- Driver profiles, stored block numbers, and events of the pallets that no property needs.
- Transport between chains (XCM, the cross-consensus message format): whether a send succeeds is a parameter; message encodings and weights are absent.
- The `ping` handler that answers with a pong, and the root-only checks of the target list.
- Time-of-flight samples, the unbounded and the one-shot metered channels.
- Reed-Solomon coding, `reconstruct`, the Merkle branches and `recovery_threshold` of the erasure-coding crate: external libraries or easy members.
- XCM version conversion, `DoubleEncoded`, the off-chain worker's queue, barriers, the template pallet, chain specifications, command line, RPC and web clients.
