# Mutant-db: verified model

A Dafny model of a database that splits secrets with threshold sharing over GF(2^8), keeps the
shares moving between pseudonyms and keys, and reshares them when holders disappear. It covers
the sharing arithmetic, the custody protocol between nodes, the orchestrator's route table, the
hash chains behind offline mutation, and the watchdog.

`dafny verify dfyconfig.toml` checks the whole project.

## How it is built

- **Arithmetic** (`Gf256`, `Gf256Product`, `Generator`, `GfTables`, `Polynomial`, `Lagrange`).
  Bytes are eight named bits. The field laws are proved, not assumed: multiplication is bilinear
  in the bits, 3 has order 255, and the two tables are filled by the loop that the program runs
  at start-up.
- **Sharing** (`Shamir`, `SharingTheorems`). `Split` and `Combine` work in place on arrays and are
  proved against `ShareAt` and `Combined`; the theorems are about those.
- **One node** (`Store`, `Ratchet`, `HashChain`, `Mutation`, `Wipe`). Tables are maps by PID and by
  secret name. A `Store` is an object whose methods are single statements or the loops between
  them; `Mutation.Node` mutates held fragments.
- **The protocol** (`Custody`, `CustodySafety`, `Reconstruction`, `Refinement`, `CustodyRuns`). All
  nodes' tables and all pending operations as one transition system. A step is one store statement
  or one message exchange; a delivery can arrive, fail, or arrive with its reply lost; any
  operation can stop for good between two steps; several mutations of one PID, several reshares of
  one name and several notice handlers can be under way at once. `Inv` is the custody invariant.
  `Value` reads the whole system as a map from node and name to bytes.
- **How its runs go on** (`RunBuilding`, `Overlaps`, `Positions`, `Rest`, `Histories`). Any pending
  operation is carried to its end, whole mutations, writes and notice handlers are put together out
  of single steps, and with these each property that fails in some runs is given its exact
  condition and a run from empty databases in which it fails.
- **The client's loops** (`Network`, `ClientSteps`, `Deals`, `Client`, `Healing`). Imperative methods
  over real `Store` objects and share buffers. `Network` carries the protocol run so far as ghost
  state. Deliveries, commits, collections, mutations and the notice handler are shown to be steps
  of it on the real tables, so what is proved of runs holds of these methods. One method call runs
  without interference; interleavings are the transition system's business.
- **The rest**: `Orchestrator`, with `OrchestratorRuns` for its anchors and epochs over whole runs of
  messages and `Routes` for its routes against what the nodes hold; `Gossip` (one group, with atomic
  mutations and handlers); `Watchdog`; `Picking`, some elements of a list in its order.

## Assumptions

- Authenticated encryption is ideal: `Sealed(key, aad, nonce, plaintext)` opens exactly under its
  own key and associated data. SHA-256, HKDF (RFC 5869) and HMAC are arbitrary functions, given as
  parameters; where a result needs them to separate their inputs it says so.
- Drawn identifiers are new, and a rotated PID is new or is one that the same share already had
  after the same number of rotations, as when one seed is used twice. Without this a put followed
  by a delete could erase a row. What is said about entries moving back is said of runs in which
  every rotated PID is new.
- Endpoints are one per node and known to all; a mesh peer's name is its node id; the holders of
  one group are different nodes.
- Entropy, clock readings and the outcome of every network exchange are parameters, arbitrary
  unless a clause restricts them. A failing random source is an entropy list that runs out.

## Where the code and its comments differ

The model follows the code.

- `store/store.go:248-251` says healing only touches backups; `client/selfheal.go:60` and
  `client/selfheal.go:79` list both kinds.
- `client/watchdog.go:23-24` says no single signal reaches the suspect score; the debugger weight
  is 60 and the suspect score 20, so it does, and it reaches the confirming score too.
- `client/selfheal.go:24` calls old shares useless after a reshare; no code deletes the old rows,
  and in the model they stay and still open.
- `store/store.go:170` speaks of at most one fragment per group and node; between a mutation's put
  and delete, or when it stops there, there are more. The theorems hold for whichever row is found.

## What turned out false, and exactly when it holds

- *The system always behaves as a map from names to bytes.* Not when a user writes a name while a
  reshare of it that can still reach its threshold, at any stage, or a notice being folded into its
  manifest, is pending with other bytes: the old bytes can come back
  (`Overlaps.OverlappedWriteIsLost`, `Histories.WriteIsLost`). Otherwise it does, whatever happens
  next: `CommitKeepsMapIff` says so of one commit and `AlwaysMapIff` of a whole run, and the
  condition can be read off the pending operations before the commit.
- *An entry of a member list never moves back.* It can in several ways, five of them with a run from
  empty databases: two notice handlers overlap at a fragment row (`RowEntryMovesBack`) or at a
  manifest (`ManifestEntryMovesBack`); a handler falls between the read and the put of a mutation of
  the receiver's own row (`MutatedEntryMovesBack`); it reads before the put and writes before the
  delete, which takes the rotation away (`DeletedEntryMovesBack`); or another mutation of the same
  row puts first, and its row is updated before this one puts (`OutlivedEntryMovesBack`). A run
  moves nothing back if and only if every write, put and delete finds what its operation had read:
  each entry it overwrites stands where it was read, or already where it is being written; each
  entry of a row it deletes stands where it was read, or a later row that has all that was read has
  followed it; and beside a row it puts, no such later row is further on (`NeverBackIff`). The first
  step that does not is the first to move something back (`StepMovesBackIff`; after that one, a
  write can also move forward again what it did not read). In a run that moves nothing back, nothing
  a node's rows or manifests ever said is unsaid (`NothingLost`, `NoManifestLost`). With atomic
  mutations and atomic handlers it never happens (`StaleGossipIsHarmless`). A handler whose row was
  deleted before its write folds in nothing; that is a missed notice, as if lost.
- *A renewed manifest stays renewed, and healing comes to rest.* Not when a notice handler read the
  manifest before the reshare's commit and writes it back after: the old group and its dead members
  are the manifest's again, with the same bytes (`ReshareThenWriteBack`, `ReshareIsUndone`). Until
  the name is shared out anew, a manifest keeps its group however the run goes on if and only if no
  pending sharing or handler aims at the name with another group (`GroupForeverIff`), and with its
  members up it rests if and only if the same (`RestsForeverIff`). Both can be read off the pending
  operations.
- *A cold mutation can always be verified afterwards.* Not once the reveal of an earlier one was
  lost, overtaken or never sent: with different links the anchor then never moves again
  (`StuckForGood`), and exactly then, or at the end of the chain (`StuckIff`).

## Model

| member | source | states |
|---|---|---|
| `Gf256.MulComm` | crypto/gf256.go:23-37 | multiplication in the field is commutative, for all bytes |
| `Gf256.MulAssoc` | crypto/gf256.go:23-37 | and associative |
| `Gf256.MulXorRight` | crypto/gf256.go:23-37 | and distributes over XOR, the field's addition |
| `Gf256Product.MulIsTheRemainder` | crypto/gf256.go:8-37 | the product is the remainder of the carry-less product modulo x^8+x^4+x^3+x+1 (section 4.2 of FIPS 197), and the only byte that differs from it by a multiple of that polynomial |
| `Generator.NoSmallerOrder` | crypto/gf256.go:14-21 | 3 generates the field: no proper divisor of 255 is an exponent with 3^d = 1, while 3^255 = 1 |
| `Generator.PowInjective` | crypto/gf256.go:14-21 | the 255 powers of 3 that the init loop runs through are all different |
| `Generator.LogExists` | crypto/gf256.go:14-21 | and meet every nonzero byte, so every slot the logarithm table is read at was filled |
| `Generator.NoZeroDivisors` | crypto/gf256.go:39-48 | a product is zero only if a factor is |
| `GfTables.GfMulSlow` | crypto/gf256.go:23-37 | the eight shift-and-add rounds compute the field product |
| `GfTables.Tables.constructor` | crypto/gf256.go:14-21 | the table loop leaves exp[i] = 3^i and log[3^i] = i, every index in range |
| `GfTables.Tables.GfMul` | crypto/gf256.go:39-48 | the table lookup equals the field product on all pairs of bytes, zero included, with table indices in range |
| `GfTables.Tables.GfDiv` | crypto/gf256.go:50-62 | it panics exactly for a nonzero dividend over zero; otherwise quotient times divisor is the dividend |
| `Polynomial.EvalIsTermSum` | crypto/shamir.go:49-55 | the Horner value of a coefficient list of any length is the sum of coeffs[i] times x^i |
| `Polynomial.RootBound` | crypto/shamir.go:57-61 | a polynomial with n coefficients that is zero at n different points is zero everywhere: the factor theorem and root count behind recombination |
| `Polynomial.UniqueThrough` | crypto/shamir.go:57-61 | at most one polynomial with n coefficients passes through n points with different x |
| `Lagrange.InterpolationTheorem` | crypto/shamir.go:86-102 | exactly one polynomial with as many coefficients as points passes through them, and its value at 0 is the weighted sum that the Combine loops add up |
| `Lagrange.WeightedSumIsValueAtZero` | crypto/shamir.go:86-102 | any polynomial of low enough degree through the points has that weighted sum as its value at 0 |
| `Shamir.EvalPoly` | crypto/shamir.go:49-55 | the loop over the coefficient array computes the polynomial's value |
| `Shamir.Split` | crypto/shamir.go:16-47 | it succeeds if and only if 2 <= threshold <= shares <= 255, the secret is not empty and there is a random row per byte, each of the four parameter errors and the failing random source standing for its own condition, in the order of the checks; then share i holds coordinate i+1 and, per secret byte, the value there of the polynomial with that byte and the drawn row as coefficients |
| `Shamir.FillColumn` | crypto/shamir.go:42-44 | the inner loop adds the next value to every share in place and leaves all earlier values alone |
| `Shamir.AcceptedIffWellFormed` | crypto/shamir.go:63-84 | the checks accept exactly the lists of two or more equally long shares with different nonzero coordinates |
| `Shamir.ComplaintIsFirst` | crypto/shamir.go:63-84 | for a rejected list: too few shares, a first share that is too short, or the kind of fault of the first share at which the list goes wrong - another length, coordinate zero, or a coordinate met before |
| `Shamir.CheckShares` | crypto/shamir.go:63-84 | the checking loop reports the first complaint and collects the coordinates |
| `Shamir.Weight` | crypto/shamir.go:91-99 | each weight's division has a nonzero divisor: the panic in gfDiv is unreachable from Combine |
| `Shamir.CombineBytes` | crypto/shamir.go:86-103 | the three nested loops fill a fresh buffer with the weighted sums, every index in range |
| `Shamir.Combine` | crypto/shamir.go:62-104 | for every input whatever: the right error, or a fresh buffer with the recombined bytes |
| `SharingTheorems.CombineInterpolates` | crypto/shamir.go:57-104 | for every accepted input each result byte is p(0) for the one polynomial p of degree below the number of shares through the given points |
| `SharingTheorems.RoundTrip` | crypto/shamir.go:13-104 | any threshold or more different shares, in any order, of any non-empty secret and any coefficients combine to the secret |
| `SharingTheorems.OneShareShort` | crypto/shamir.go:57-61 | one share short, each byte comes out as the secret XOR (top coefficient times product of coordinates): right if and only if that coefficient is 0 |
| `SharingTheorems.SecrecyOfByte` | crypto/shamir.go:13-15 | threshold-1 points and any candidate value of the byte: exactly one choice of the random coefficients explains them |
| `SharingTheorems.Secrecy` | crypto/shamir.go:13-45 | the same for whole secrets: whatever threshold-1 shares are seen, every secret of that length is explained by exactly one choice of all the random rows |
| `HashChain.BuildChain` | crypto/hashchain.go:23-37 | a fresh chain of max(length,1)+1 links, each the hash of the one above, with the random tip on top |
| `HashChain.VerifyStep` | crypto/hashchain.go:45-55 | the accumulated difference is zero exactly when the revealed value is the hash of the trusted one, lengths included |
| `HashChain.ColdChain.Consume` | client/node.go:32-39 | hands out chain[next] and counts down, and refuses for good below 0 |
| `HashChain.LinksOnceInOrder` | client/node.go:267-283 | over any run with scheduled mutations in between, cold mutations get links n-1, n-2, ... once each, and none after the last |
| `HashChain.AnchorCountsAccepted` | orchestrator/orchestrator.go:83-98 | in any run, reveals lost or reordered, the anchor is the link as far below the tip as there were accepted reveals |
| `HashChain.AcceptedIffNext` | orchestrator/orchestrator.go:83-98 | with different links, the reveal of link j is accepted if and only if the anchor is link j+1 |
| `HashChain.StuckForGood` | client/node.go:267-283 | so once the awaited link has been handed out and its reveal is lost, or was never sent because the mutation failed, or came too early, no reveal is accepted in the rest of the run |
| `HashChain.StuckIff` | orchestrator/orchestrator.go:83-98 | and only then, or when no link is left: otherwise some continuation has a reveal accepted |
| `HashChain.InOrderAlwaysVerifies` | orchestrator/orchestrator.go:83-98 | with lossless in-order acks every reveal that arrives is accepted |
| `Orchestrator.Orchestrator.AnnounceRoute` | orchestrator/orchestrator.go:69-77 | exactly one route is written, at epoch 0 with the announced endpoint, and one anchor, the announced tip; the table epoch moves on modulo 2^64 |
| `Orchestrator.Orchestrator.AckMutation` | orchestrator/orchestrator.go:83-113 | the anchor of the chain becomes the seed used if the ack is cold, the chain is known and the seed is the hash of the anchor, and no anchor changes otherwise; the old PID has no route any more, the new one has, with the old endpoint or, when there was no old route, the node id |
| `OrchestratorRuns.KnownIffAnnounced` | orchestrator/orchestrator.go:83-90 | over any messages, a chain has an anchor if and only if it has been announced |
| `OrchestratorRuns.AnchorFollowsChain` | orchestrator/orchestrator.go:69-98 | over any messages since a chain was announced with its tip - scheduled acks, acks for other chains, reveals that do not verify, all in any order - the anchor is the k-th link below the tip, k being the number of reveals that each were the next link down |
| `OrchestratorRuns.AnchorOfTheChainsRun` | orchestrator/orchestrator.go:83-98 | when the reveals among the messages are those that arrive in a run of the chain, the table's anchor is that run's anchor: the link as far below the tip as there were accepted reveals |
| `OrchestratorRuns.EpochCounts` | orchestrator/orchestrator.go:69-113 | after i messages the table epoch is i modulo 2^64 |
| `OrchestratorRuns.EndpointOrigin` | orchestrator/orchestrator.go:69-113 | every route's endpoint was announced, or is the id of a node whose ack named a PID without a route |
| `Routes.NextKeepsInv` | orchestrator/orchestrator.go:69-113 | processing what a node still has queued would bring its part of the table up to date: kept by every acquisition, mutation and processed message, in any interleaving of nodes |
| `Routes.QuiescentRoutesAreHoldings` | orchestrator/orchestrator.go:69-113 | whenever nothing is outstanding the routes are exactly the fragments held, with node, endpoint, epoch and chain |
| `Watchdog.Watchdog.Tick` | client/watchdog.go:81-119 | with weights 15, 60 and 10: during a cooldown no reaction; otherwise confirmed when a debugger is attached and the streak is already positive, else suspect when a debugger is attached or a remote session comes with reparenting, else none; and what streak and cooldown become |
| `Watchdog.Watchdog.React` | client/watchdog.go:129-137 | the streak is reset and the cooldown set 10 or 20 seconds ahead |
| `Watchdog.ReactsIff` | client/watchdog.go:81-119 | in any run, simulated attacks included, a tick reacts if and only if no cooldown is in force and a debugger is attached or a remote session comes with reparenting |
| `Watchdog.ConfirmedIff` | client/watchdog.go:98-119 | and it reacts confirmed if and only if, besides, the event right before was a tick that also had the debugger and fell into a cooldown |
| `Watchdog.CooldownHasCause` | client/watchdog.go:124-137 | the cooldown ends 20 seconds after the last reaction if that was confirmed, 10 if not |
| `Watchdog.ConfirmedFollowsMaskedTick` | client/watchdog.go:98-119 | every tick-driven confirmed reaction directly follows a tick with a debugger attached that fell inside the cooldown of the last reaction before it |
| `Watchdog.FirstReactionNotConfirmed` | client/watchdog.go:98-119 | so without simulated attacks the first reaction of a run is never confirmed |
| `Watchdog.ReactionRate` | client/watchdog.go:98-137 | any window of length T has at most T/10s + 1 reactions and T/20s + 1 confirmed ones |
| `Watchdog.CooldownNeverShrinks` | client/watchdog.go:124-137 | simulated attacks included, the end of the cooldown never moves back |
| `Store.Store.PutFragmentRow` | store/store.go:120-138 | insert or overwrite by PID |
| `Store.Store.GetFragmentByGroup` | store/store.go:174-177 | some row of the group, or none exactly when there is none |
| `Store.Store.DeleteFragmentRow` | store/store.go:181-184 | delete by PID |
| `Store.RewriteMembers` | store/store.go:209-216 | each entry with the old PID gets the new PID and endpoint and keeps its node; every other entry, the length and the order stay |
| `Store.Store.UpdateSiblingRows` | store/store.go:189-229 | reading, then writing back only what changed, rotates those entries in all rows of the group and in no others, and changes nothing else of any row |
| `Store.Store.PutManifestRow` | store/store.go:263-279 | insert or overwrite by secret name, an empty kind becoming "secret" |
| `Store.Store.ListManifestsByKind` | store/store.go:314-333 | exactly the manifests of the kind, once each |
| `Store.Store.GetManifestByGroup` | store/store.go:306-309 | some manifest of the group, or none exactly when there is none |
| `Store.Store.UpdateManifestMember` | store/store.go:340-352 | rotates one member in some manifest of the group, and reports not-found exactly when there is none |
| `Store.OpensOnlyAsSealed` | crypto/aead.go:15-46 | a sealed share opens under the key it was sealed with, as the same PID of the same group, and under no other key, group or PID, group ids having no colon |
| `Store.AadSeparates` | client/node.go:192-198 | without colons in group ids, as in hexadecimal ones, group:pid determines group and PID |
| `Store.AadCanCoincide` | client/node.go:192-198 | with them it does not: a:b with c and a with b:c give the same text |
| `Mutation.Node.RegisterNewFragment` | client/node.go:148-168 | the stored chain and the announced tip are the two sides that the chain theorems start from: 65 links, the node at link 63, the anchor at link 64 |
| `Mutation.Node.TakeDelivery` | client/peerserver.go:19-48 | the delivered row is stored, under a fresh 65-link chain whose tip is announced, if the random source holds out; otherwise neither chain nor row is |
| `Mutation.Node.ApplyMutation` | client/node.go:173-229 | it goes through if and only if the PID is held, key, seed and entropy are not empty and the row opens under its own key and identity; then the old row is replaced by one with key HKDF(seed and entropy, salt the old key), PID MAC(seed, old PID), the next epoch, the same share sealed under them with the new identity, and all else the same, and the acknowledgement and notices are as listed; otherwise nothing changes. Key, plaintext and entropy are local buffers and wiped, and the new row does not depend on that |
| `Mutation.Node.NotifySiblings` | client/node.go:231-244 | one notice per listed member other than this node, in list order |
| `Mutation.NoticesExactly` | client/node.go:231-244 | the notices stand for the places of the list whose node is another one, each once and in order |
| `Mutation.Node.ColdMutate` | client/node.go:267-283 | unknown PID, unknown chain and used-up chain change nothing; otherwise exactly one link of exactly that chain is consumed and drives the mutation, and what is sent is a cold acknowledgement carrying that link as the seed used, and a notice to each sibling |
| `Mutation.RatchetSteps` | client/node.go:173-212 | after any list of seeds the fragment is still held; n effective ones give epoch n, the PID folded by NextPseudoID, the key folded by Advance, the same share, and unchanged group, token, chain, threshold, total and members |
| `Mutation.StoredKeysDiffer` | crypto/ratchet.go:30-38 | for a derivation that separates its inputs, two mutations, of the same row or not, store the same key if and only if the old keys, the seeds and the entropies, of one length, are all the same |
| `Mutation.StoredPidsDiffer` | crypto/ratchet.go:53-57 | for codes that separate theirs, they store the same PID if and only if the old PIDs and the seeds are the same |
| `Mutation.StoredKeyIsNew` | client/node.go:173-212 | for a derivation that never returns its salt, the stored key is not the old one, the share is the same, and the new ciphertext does not open under the old key whatever the identity given |
| `Mutation.HistoriesDiffer` | crypto/ratchet.go:23-57 | under both separations, two histories of equally many mutations of a row end with the same key if and only if all their seeds and entropies agree, and with the same PID if and only if all their seeds do |
| `Mutation.RetiredStaysAway` | crypto/ratchet.go:53-57 | a PID that was rotated away never comes back |
| `Mutation.StaleSeedIgnored` | client/node.go:120-131 | a seed for a PID that was rotated away, late or delivered again, changes nothing |
| `CustodySafety.RotatedOk` | store/store.go:209-216 | folding any sent notice into any member list of its group keeps every entry a PID of that entry's own node |
| `CustodySafety.DeliverKeeps` | client/peerserver.go:19-48 | a delivery - arrived, lost, or arrived with the reply lost - keeps the custody invariant |
| `CustodySafety.PutNewRowKeeps` | client/node.go:203-209 | putting the new row keeps it, also against concurrent mutations of the same PID, and also when two of them rotate to the same PID |
| `CustodySafety.DeleteOldRowKeeps` | client/node.go:210-212 | deleting the old row keeps it: the last stored row of a share is never the one deleted |
| `CustodySafety.CommitKeeps` | client/split.go:163-167 | committing a manifest after its last delivery keeps it |
| `CustodySafety.WriteRowKeeps` | store/store.go:223-227 | so does each delayed write-back of a notice |
| `CustodySafety.NextKeepsInv` | client/node.go:173-229 | every step of every operation, interleaved at single-statement granularity and stopped anywhere, keeps the custody invariant |
| `Reconstruction.DeliveredShareIsHeld` | store/store.go:174-184 | at least one row of a delivered share's group is at its holder, and every such row opens under its own key and group:pid to that share |
| `Reconstruction.CollectionReturnsSecret` | client/reconstruct.go:22-56 | a finished member loop combines to the secret of the manifest it read if and only if at least threshold members answered, whichever they were |
| `Reconstruction.StoredManifestIsRecoverable` | client/split.go:107-166 | every stored manifest, at every prefix of every sharing and resharing, has 2 <= threshold <= total = its number of members <= 255, every member holds its share, and any threshold of them by any of their rows combine to the secret |
| `Refinement.StepValue` | client/split.go:163-166 | a user's commit sets its name to its bytes and no other step changes the bytes under any name, as long as pending rewrites agree with what is stored |
| `Refinement.StepAgree` | client/selfheal.go:129-167 | every step but a user's commit keeps that agreement, reshares and notices included |
| `Refinement.UserCommitAgrees` | client/split.go:163-166 | after a user's commit the agreement holds if and only if nothing pending that can still write carries other bytes for the same name |
| `RunBuilding.FinishOp` | client/selfheal.go:129-167 | every pending reshare that can still reach its threshold - collecting, sharing out or about to commit - and every pending rewrite of a manifest can be brought to the point where its bytes stand under its name, without any user writing |
| `Overlaps.MapForeverIff` | client/split.go:163-166 | every name holds the bytes last written now and after every continuation without a user write if and only if it does now and the pending operations agree with what is stored |
| `Overlaps.CommitKeepsMapIff` | client/split.go:163-166 | a user's commit keeps that so if and only if no pending operation that can still write carries other bytes for the name |
| `Overlaps.AlwaysMapIff` | client/split.go:58-167 | a run is a map at every point, and would stay one however it went on from there, if and only if no user write in it overlaps such an operation |
| `Overlaps.OverlappedWriteIsLost` | client/selfheal.go:129-167 | when one does, at whatever stage the other operation is, some continuation without a user write ends with other bytes under the name |
| `Histories.WriteIsLost` | client/selfheal.go:129-167 | such a run from empty databases: three nodes, one reshare, one write, and the write is gone |
| `Positions.StepMovesBackIff` | store/store.go:189-229 | in every run at statement level, with new PIDs: the first step that moves something back - a write over a row or manifest, a mutation's put or its delete - is the first that finds some entry standing neither where its own operation had read it nor where it is writing it; for the delete, nor where a later row has followed it; and for a put, or finds some later row, put by another mutation, further on |
| `Positions.NeverBackIff` | client/peerserver.go:91-106 | so a whole run never moves anything back if and only if every write of a notice handler and every put and delete of a mutation finds what its operation had read, or its own move already made |
| `Positions.NothingLost` | client/node.go:203-212 | what that means, whatever the operations were: in a run that moves nothing back, all that a node's row ever said of where each member stands is at any later time still said by that row, or by a later row of the same share once it has been deleted |
| `Positions.NoManifestLost` | store/store.go:340-352 | and a manifest that names the same group as before has each entry where it was or further on, and has named that group all the while |
| `Positions.StepMovesBackIffEntries` | store/store.go:340-352 | while no PID has been rotated twice, the same about the very entries: each one overwritten is the one that was read or already the one being written, each one deleted is the one that was read or a later row has followed it |
| `Histories.RowHandlersOverlap` | store/store.go:189-229 | from any reachable state in which two notices for different entries of a row are under way, some continuation moves an entry of that row back |
| `Histories.ManifestHandlersOverlap` | store/store.go:340-352 | the same for a manifest |
| `Histories.HandlerInsideMutation` | client/node.go:173-209 | from any reachable state with one notice under way for a row: its handler, run whole between the read and the put of a mutation of that row, has its entry moved back |
| `Histories.HandlerAcrossPut` | client/node.go:203-212 | from any such state with no later row: its handler reads before the put and writes before the delete, and the delete moves the entry back |
| `Histories.MutationOutlived` | client/node.go:173-209 | from any such state: another mutation of the row goes through, its new row takes the notice, and the put of the first is behind it |
| `Histories.RowEntryMovesBack` | store/store.go:189-229 | a run from empty databases in which two handlers overlap at a row and an entry moves back |
| `Histories.ManifestEntryMovesBack` | store/store.go:340-352 | one in which they overlap at a manifest |
| `Histories.MutatedEntryMovesBack` | client/node.go:173-209 | one in which a handler falls between a mutation's read and its put |
| `Histories.DeletedEntryMovesBack` | client/node.go:203-212 | one in which a handler reads before the put and writes before the delete |
| `Histories.OutlivedEntryMovesBack` | client/node.go:173-209 | one in which another mutation of the row has gone through, and its new row was updated, when one puts |
| `CustodyRuns.RunInv` | client/node.go:173-229 | the custody invariant holds in every world of every run from empty databases |
| `CustodyRuns.ShareNeverLost` | client/node.go:173-229 | a share delivered once is held by its holder, unchanged, for the rest of the run |
| `CustodyRuns.SystemIsMap` | client/split.go:58-167 | in every run in which no user write overlaps a pending rewrite of its name with other bytes, every node's names hold exactly what was last written under them |
| `CustodyRuns.ReconstructionReturnsLastWritten` | client/reconstruct.go:16-57 | in such a run a reconstruction returns exactly the bytes last written under the name when it read the manifest if at least threshold members answered, and nothing otherwise |
| `Gossip.EveryOtherHolderIsTold` | client/node.go:231-244 | however stale its own list, a mutating holder notifies each of the other holders once and itself never |
| `Gossip.NextKeepsInv` | client/peerserver.go:91-106 | every entry of every list stands where handling the notices so far must have brought it |
| `Gossip.StaleGossipIsHarmless` | client/peerserver.go:91-106 | with mutations and handlers atomic: under lost, repeated and reordered notices every list keeps its (NodeID, Endpoint) sequence, each entry stays in its own node's PID history and never moves back |
| `Gossip.GossipIsExact` | store/store.go:189-229 | with mutations and handlers atomic: a holder's list, and a holder-owner's manifest, has another holder's current PID if and only if the node handled all that holder's rotations in order, as a subsequence of whatever it handled; in particular after lossless in-order delivery |
| `Gossip.UntoldEntriesStay` | client/node.go:231-236 | a holder's entry for itself and all entries of a backup's manifest stay at the first PID |
| `Wiping.Wipe` | crypto/wipe.go:13-17 | every byte of the buffer becomes zero |
| `Network.Network.TakeCustody` | client/peerserver.go:36-44 | a holder's put of a delivered row, or its absence when the request is lost, is one Deliver step of the protocol on the real tables |
| `Network.Network.CommitManifest` | store/store.go:263-279 | storing the manifest is one Commit step |
| `Network.Network.ApplyMutation` | client/node.go:173-229 | a node's mutation of a held row, acknowledgement and notices included, appends to the protocol's run exactly the read, the put and the delete of one mutation, or nothing when it fails; its notices are then under way |
| `Network.Network.HandleNotice` | client/peerserver.go:91-106 | the notice handler appends to the run exactly one read of the rows, writes of its own to different rows and its end, and then, if there is a manifest of the group, that one's read and write; together they give each entry with the old PID the new PID and endpoint, in every row of the group and in one such manifest, and touch nothing else |
| `Network.Network.FetchGroupShare` | client/peerserver.go:69-89 | unknown endpoint, unknown group and wrong token give nothing; otherwise what one of the node's rows of the group opens to, and wiping the buffer it was opened into does not change what was sent |
| `Network.Network.CheckPresence` | client/peerserver.go:54-67 | present exactly when the row found has the token asked with |
| `Network.Network.OwnShare` | client/reconstruct.go:27-39 | the local share: any one row of the group, if it opens |
| `Client.Owner.AskMember` | client/reconstruct.go:27-46 | in every reachable state a member that can be reached answers with exactly its share |
| `Client.Owner.CollectShares` | client/reconstruct.go:22-47 | the member loop with its early exit: it stops as soon as threshold members have answered or at the end of the list, with one share per member that answered, each in a new buffer, no two the same |
| `Client.Owner.CombineAndWipe` | client/reconstruct.go:49-56 | the wipe loop leaves zeros in the shares and does not touch the combined secret |
| `Client.Owner.Reconstruct` | client/reconstruct.go:16-57 | returns exactly the bytes stored under the name if and only if the number of the manifest's members whose exchange works is at least the threshold; no database changes |
| `Client.Owner.ReachablePeers` | client/split.go:28-50 | the first `need` listed nodes other than this one that answer a ping, or an error when there are fewer |
| `Deals.ReachableExactly` | client/split.go:28-50 | the nodes found are those at the places of the list whose node is another one and answers, each once and in order |
| `Deals.SplitWorksIff` | client/split.go:58-167 | the parameter bounds, the number of answering nodes, the randomness and the acknowledgements are together exactly what a split needs |
| `Deals.BackupWorksIff` | client/backup.go:33-100 | and the like for a backup, the whole mesh having to answer |
| `Client.Owner.DeliverOne` | client/split.go:107-161 | one share sealed under its drawn key for its holder and handed over; a failure ends the sharing there; wiping key and share afterwards does not touch the row sent |
| `Client.Owner.DeliverAll` | client/split.go:107-161 | the loop fails exactly at the first share not acknowledged; when none fails every share buffer has been wiped; nothing is committed either way |
| `Client.Owner.Distribute` | client/backup.go:33-100 | goes through exactly when the parameters are valid, the random source suffices and every delivery is acknowledged; then one manifest over a complete new group is stored, otherwise no manifest anywhere changes |
| `Client.Owner.Split` | client/split.go:58-167 | it succeeds if and only if 2 <= threshold <= total <= 255, the data is not empty, at least total-1 other listed nodes answer, the random source suffices and every delivery is acknowledged, with the errors before the sharing each for its own condition; then one manifest over the drawn group, with this node as first member and listed nodes as the others, is stored under the name, the name holds exactly the given bytes and no other name changes; otherwise no manifest changes |
| `Client.Owner.Backup` | client/backup.go:25-31 | the same over the whole trusted mesh, every peer of which must answer, with no share kept locally |
| `Healing.ProbeMembers` | client/selfheal.go:111-121 | in every reachable state the probe finds exactly the members whose endpoints answer |
| `Healing.ReshareManifest` | client/selfheal.go:129-167 | no name's bytes change, whatever fails; it goes through exactly when the collection and the new sharing do, and then the new manifest is over the new group |
| `Healing.CanReshareIff` | client/selfheal.go:129-167 | a reshare goes through if and only if at least threshold members answer the collection, the bytes are shareable, and the mesh peers that answer, or total-1 listed nodes, make up a group within bounds all of whose members acknowledge |
| `Healing.AliveExactly` | client/selfheal.go:111-121 | the alive members are those at the places of the list whose endpoint answers, in order |
| `Healing.AnsweringExactly` | client/selfheal.go:138-149 | and the like for the mesh peers that answer a ping |
| `Healing.HealOne` | client/selfheal.go:92-107 | with k the number of members whose endpoint answers, a reshare is attempted if and only if threshold <= k <= min(total-1, threshold+margin); otherwise no step is taken |
| `Healing.HealManifests` | client/selfheal.go:77-90 | a cycle changes no bytes; each manifest of either kind with k in that window, enough members answering the collection and enough holders acknowledging is afterwards over the drawn group, with the same name, kind and threshold; every other manifest stays as it is |
| `Healing.ForceReshareOwned` | client/selfheal.go:58-75 | the same for every manifest of both kinds, whatever is alive |
| `Healing.RenewedIsUp` | client/selfheal.go:137-166 | every member of a renewed manifest acknowledged its share or is the node itself |
| `Healing.NextCycleRests` | client/selfheal.go:77-107 | after a cycle that renewed everything urgent, nothing is urgent while the same endpoints answer |
| `Healing.HealingComesToRest` | client/selfheal.go:92-121 | over any later part of any run in which the manifest comes to name the same group, it is not urgent while its members stay up |
| `Rest.GroupForeverIff` | client/selfheal.go:129-167 | however a run goes on, until the name is shared out anew, its manifest stays over its group if and only if no pending sharing and no pending write-back of a notice aims at the name with another group |
| `Rest.RestsForeverIff` | client/selfheal.go:92-121 | and if all its members are up: it keeps its group and is never urgent in all those continuations, whatever mutations, notices and other operations they hold, if and only if the same |
| `Histories.ReshareThenWriteBack` | store/store.go:340-352 | otherwise it need not: from any reachable state with a notice under way for a stored manifest's group, some continuation completes a reshare of the name and then has the handler put the old group back, the bytes staying the same |
| `Histories.ReshareIsUndone` | store/store.go:340-352 | a run from empty databases in which that happens, the bytes staying the same |

## Left out

- HTTP, JSON, server-sent events and the command line: only the outcome of each exchange is modelled.
- The inside of AES-GCM, SHA-256, HMAC, HKDF, scrypt and Curve25519, sealing of the root key, and the
  derivation of the owner's own fragment key: keys are drawn values.
- SQL text, migration, and wrapping of keys under the storage key: tables are maps and hold the keys
  themselves; statement failures appear as operations that stop.
- WireGuard keys and configuration, the mesh directory table, heartbeats, alert throttling, event
  channels, jitter and the random choice of a route: they carry no property of their own here.
- Process restart, which loses the chains in memory, and endpoint changes: outside the assumptions.
- The watchdog's platform detectors: arbitrary booleans per tick. What a reaction then calls is
  `ColdMutate` and `ForceReshareOwned`, each modelled on its own.
- The handler of orchestrator events: it only passes a seed on to `ApplyMutation`, and ignores deltas.
- Mutation.Node.ApplyMutation: a statement that fails between the put and the delete is not in this
  method; in the transition system a mutation can stop there, and the custody theorems cover it.
- Network.Network.TakeCustody: the chain that the deliver handler provisions and announces before the
  put is not part of the protocol's world; `Mutation.Node.TakeDelivery` models it for one node.
- Client.Owner.Split: one call runs without interference from other nodes; what interference can do is
  stated about runs of the transition system.
- Gossip.StaleGossipIsHarmless: one group, with mutations and notice handlers atomic; statement by
  statement, `Positions.NeverBackIff` is exact about moving back, and that an entry always stays its
  own node's PID, with its endpoint, is part of the custody invariant.
- Gossip.GossipIsExact: under the same atomicity.
- Healing.HealingComesToRest: supposes that the manifest names the same group again; exactly when it
  will is `Rest.GroupForeverIff`.
- Routes.QuiescentRoutesAreHoldings: mutations are atomic per node and messages per node arrive
  losslessly in order; with losses the table can go stale for good.
- Whether a garbage-collected runtime really clears wiped memory, and all probabilities and timing.
