# Dirextalk server: verified model of its codecs, publication and issuance

This project models, in Dafny, the parts of the Dirextalk server whose correctness spans many
steps or many branches, and proves what they promise for all inputs and all histories. `dafny
verify dfyconfig.toml` checks everything.

- **Crash-safe publication** (`CrashingDirectory`, `BindingPair`): the agent-control tool publishes a
  binding and its request as two files through deterministic temporary files and hard links. The
  directory is an object with inodes and link counts; an oracle lets every call proceed, fail or
  be the last one before the process dies, a write also in the middle.
- **Issuing bootstrap material** (`Issuance`): any number of processes share a lock file, a
  database row, the secret handoff and the plan. A history is any interleaving of their durable
  steps with deaths and lost files.
- **Deterministic CBOR** (`CanonicalCbor`, `CborTheorems`, `CborParser`, `CborEncoder`): the one
  canonical form of a value, the decoder as a function, and both the parser and the encoder as
  the stateful objects they are, proved against those.
- **Signed group actions and MLS commits** (`GroupCodec`, `NumberedForms`, `ActionProof`,
  `MlsCommand`, `MlsBody`, `MlsReceived`, `MlsWire`, `MlsShapes`): parsers and printers over
  canonical values, the bytes they are received in, and what request digests and signatures cover.
- **Host-control wire format** (`Material`, `Frame`) and **bearer secrets** (`Secret`).
- **Issuer and supervisor** (`Text`, `BootstrapText`, `AddressForms`, `Json`, `Bootstrap`,
  `MemberNames`, `Agreement`, `IssuedRequests`, `Receipts`, `PlanSizes`, `OversizedRequest`,
  `Lifecycle`): each side's texts are written out from its own records; what issuing processes
  report, the supervisor accepts, and nothing but what is issued, and receipts pin it.
- **Strict DER** (`StrictDer`), **admission** (`Admission`), **hard links of an exported image**
  (`HardLinks`), **local TLS bootstrap** (`LocalTls`), **connector plans** (`PlanNormalise`), the
  **commit feed query** (`FeedQuery`).

Digests, signatures and X.509 are functions; where a statement needs two inputs not to collide it
says so of those two inputs. Four hypotheses about such functions have names, and each is shown to
be met by some function: `Bootstrap.Faithful` (a JSON reader reads back what is written and looks
for repeated members), `LocalTls.Genuine` with `LocalTls.Working` (certificates and keys of one run
pass each other's checks, those of two runs do not), `MlsShapes.Proper` (hashes have 32 bytes) and
`Lifecycle.Concrete` (the digest of a handoff is that of its text).
Clocks, random material and file-system outcomes are parameters.

Where the code does less than its documentation or its callers expect, the code is modelled as
it is and the exact condition is proved:

- A published file above 65,536 bytes is refused by every later run (`BindingPair.OversizedRequestSticks`;
  `BindingPair.PublishPair` gives the condition for success). Version texts are unbounded, so a
  request can get that large.
- A lock file whose first write is cut short blocks its operation for good (`Issuance.FirstRunTears`;
  `Issuance.UndisturbedRun` gives the condition for a run to succeed).
- A commit of 1,048,576 bytes is admitted, and a body of 1,100,000, but the codec decodes 1,048,576
  bytes at most, so the largest commits are never received (`MlsShapes.LargestCommitIsLost`;
  `MlsWire.ReceivableIff` gives the condition).
- A per-source limit of zero leaves an empty entry per refused source for good
  (`Admission.ZeroLimitLeavesEntry`, `Admission.ExactIff`). This is a property of the type: the
  gateway only ever passes 32.
- A validated request whose plan is above 65,536 bytes, which is 153 bytes more than the request, or
  whose expiry is above 2^53-1, binds the lock file and mints a handoff, and is then refused for good
  (`Lifecycle.OversizedPlanIsStuck`, `Lifecycle.UnsafeExpiryIsStuck`; `Issuance.UndisturbedRun` gives the
  condition).
- A run of the TLS bootstrap that saw the directory empty can later mix its files into a set that
  another run has reported as present (`LocalTls.MixedAfterReport`; `LocalTls.ReportedIsOnDiskIff`
  gives the condition).
- A negative CBOR value that is not negative is parsed as an instant although no decoder produces
  it (`ActionProof.UngenuineTimeIsNotRebuilt`).

## Model

| member | source | states |
|---|---|---|
| `BindingPair.ExactRootOutput` | bins/dtx-agent-control/src/provision.rs:3576-3606 | True only for a published file with exactly these bytes, one link and an admissible size; false only where no file is published; on an undisturbed disk it decides between the two. |
| `BindingPair.LinkCounts` | bins/dtx-agent-control/src/provision.rs:3656-3692 | In every ordered disk the link counts that recovery inspects tell a temporary file already linked into place from one that is not. |
| `BindingPair.RecoverLinked` | bins/dtx-agent-control/src/provision.rs:3675-3704 | The two-link half of recovery: drops the temporary name of a published file and nothing else, and only if the bytes are the expected ones. |
| `BindingPair.Recover` | bins/dtx-agent-control/src/provision.rs:3643-3704 | However it ends it leaves the other output and all published bytes alone; undisturbed, it fails exactly on linked bytes that are not the expected ones. |
| `BindingPair.Stage` | bins/dtx-agent-control/src/provision.rs:3616-3625 | From a free slot the final name is only ever absent or whole, under every failure or crash between two calls. |
| `BindingPair.Publish` | bins/dtx-agent-control/src/provision.rs:3608-3630 | Same for one output with recovery and clean-up; undisturbed it always succeeds and leaves just the one file, and if a single call fails on a free slot no temporary name is left. |
| `BindingPair.RecoverPair` | bins/dtx-agent-control/src/provision.rs:3558-3562 | The first half of a run: no published byte changes however it ends, and undisturbed it goes on exactly if what is published is as expected. |
| `BindingPair.PublishPair` | bins/dtx-agent-control/src/provision.rs:3558-3574 | One run: soundness, published bytes and wholeness of the pair survive any failure or crash; success means both files exact; undisturbed it succeeds if and only if what is already published is recognisable as this pair. |
| `BindingPair.Campaign` | bins/dtx-agent-control/src/provision.rs:3532-3704 | No torn pair: over every sequence of runs with any inputs and crashes, a binding file implies the request file of one single run invoked with exactly both, and a published file never changes; a temporary file beside a published one always shares its inode. |
| `BindingPair.Converge` | bins/dtx-agent-control/src/provision.rs:3532-3704 | Crash convergence: after any crashed runs with one pair within the size bound, one undisturbed run returns success and leaves exactly the two files with one link each. |
| `BindingPair.OversizedRequestSticks` | bins/dtx-agent-control/src/provision.rs:3582-3584 | The size bound is needed: larger bytes are published once, and from then on the same run is refused. |
| `Issuance.BindLockKeeps` | bins/dtx-agent-control/src/provision.rs:2032-2105 | Binding the operation lock file, whole or torn, keeps the invariant of all processes, files and the row. |
| `Issuance.LoadRowKeeps` | bins/dtx-agent-control/src/provision.rs:282-325 | Loading the recorded issuance and refusing another request or an unbacked plan keeps it. |
| `Issuance.AcquireHandoffKeeps` | bins/dtx-agent-control/src/provision.rs:1810-1862 | Reading or minting the handoff keeps it; material is minted exactly where there is neither file nor row. |
| `Issuance.CheckMaterialKeeps` | bins/dtx-agent-control/src/provision.rs:345-362 | Comparing recovered material with the row, and refusing a plan that is too large or differs from the one on disk, keeps it. |
| `Issuance.CommitKeeps` | crates/dtx-agent-control-server/src/provisioning.rs:58-120 | The transaction, with its refusal of times beyond 2^53-1 and its insert-or-equal of the row, keeps it. |
| `Issuance.PublishReadyKeeps` | bins/dtx-agent-control/src/provision.rs:1864-1867 | Replacing the handoff by its ready form keeps it: the digest was of the ready form all along. |
| `Issuance.PublishPlanKeeps` | bins/dtx-agent-control/src/provision.rs:4289-4341 | Publishing or confirming a plan of at most 65,536 bytes keeps it. |
| `Issuance.ApplyKeeps` | bins/dtx-agent-control/src/provision.rs:246-417 | Every step of any process, every death and every loss of a file keeps the invariant. |
| `Issuance.Reachable` | bins/dtx-agent-control/src/provision.rs:246-417 | So it holds after every interleaved history. |
| `Issuance.CommittedForever` | bins/dtx-agent-control/src/provision.rs:246-417 | From a committed row on, row, material, lock binding and everything minted stay as they are, for ever. |
| `Issuance.SingleIssue` | bins/dtx-agent-control/src/provision.rs:246-417 | Single issue: over all runs, retries, crashes and lost files at most one set of material and creation time is committed per operation, all reports of success by whatever process agree on it, and nothing is minted once the row exists. |
| `Issuance.IssuanceOrdering` | bins/dtx-agent-control/src/provision.rs:354-417 | In every reachable state a ready handoff or a plan on disk is backed by a committed row whose digests are those of the bytes on disk. |
| `Issuance.RowRecords` | bins/dtx-agent-control/src/provision.rs:374-407 | In every reachable state, column by column: the row records the digest of its request, of its plan and of the ready handoff and two different secrets it was committed with, their intent and expiry, and the paths and creation time of the lock, within the window. |
| `Issuance.RequestsAreAsked` | bins/dtx-agent-control/src/provision.rs:246-290 | A committed row is of a request, and of paths, that some process began with within its window; so is every running process. |
| `Issuance.NeverRefused` | bins/dtx-agent-control/src/provision.rs:336-415 | A process that holds a valid handoff, whatever the others do, is refused exactly if its plan is above 65,536 bytes or its expiry above 2^53-1; recorded and recomputed digests always agree, and its last step reports. |
| `Issuance.UndisturbedRun` | bins/dtx-agent-control/src/provision.rs:246-417 | A run left alone reports, with row, ready handoff and plan in place, if and only if a condition on window, request size, expiry, lock, row and handoff file holds beforehand. The state it ends in is given in closed form both ways: refused, it leaves at most the binding of an empty lock file and a handoff it minted, and nothing else changes. |
| `Issuance.ExactRetry` | bins/dtx-agent-control/src/provision.rs:323-362 | The exact request, retried in its window while lock and handoff survive, always completes, mints nothing and reports the committed material. |
| `Issuance.TornForever` | bins/dtx-agent-control/src/provision.rs:2045-2105 | A first write of the lock file cut short is never repaired: no later history commits or hands out anything. |
| `Issuance.FirstRunTears` | bins/dtx-agent-control/src/provision.rs:2045-2105 | And it happens: from the start, every first run can tear the lock with its second step, after which no history issues anything. |
| `Issuance.CommittedIsIssuable` | crates/dtx-agent-control/src/enrollment.rs:150-160 | In every reachable state what is committed has a plan within 65,536 bytes and an expiry within 2^53-1, and every report is of something committed. |
| `Issuance.UnissuableIsStuck` | bins/dtx-agent-control/src/provision.rs:4289-4292 | A request beyond either bound is taken up all the same: from the start its first run binds the lock file and mints a handoff, and no continuation for this request, of any number of processes, commits or reports anything. |
| `Issuance.RunKeepsMade` | bins/dtx-agent-control/src/provision.rs:1810-1862 | Every handoff on disk, in hand or committed is of material some process minted, so has whatever all minted material has. |
| `PlanSizes.PlanSize` | bins/dtx-agent-control/src/provision.rs:2328-2361 | The text of a plan is 153 bytes longer than the compact text of its request, whatever the request. |
| `PlanSizes.HandoffSize` | bins/dtx-agent-control/src/provision.rs:1298-1315 | Every issued handoff takes at most 5,617 bytes. |
| `OversizedRequest.LargestRequestIsOversized` | bins/dtx-agent-control/src/provision.rs:2363-2388 | A validated request with a long version whose text is 65,536 bytes, the most that is read, and whose plan is 65,689. |
| `Lifecycle.PlanFitsIff` | bins/dtx-agent-control/src/provision.rs:4289-4292 | The size the processes judge a plan by is that of its text. |
| `Lifecycle.ValidatedBegins` | bins/dtx-agent-control/src/provision.rs:2245-2289 | A validated request is within the window in which a process begins, at first generation and revision. |
| `Lifecycle.UnsafeExpiryIsStuck` | crates/dtx-agent-control/src/enrollment.rs:637-639 | A concrete validated request with an expiry of 2^53: lock bound, handoff minted, nothing ever reported. |
| `Lifecycle.OversizedPlanIsStuck` | bins/dtx-agent-control/src/provision.rs:4289-4292 | A concrete validated request of the largest size: the same. |
| `CanonicalCbor.ReadHeadSound` | crates/dtx-wire/src/canonical_cbor.rs:445-484 | What the reader accepts as a head is the shortest form of its argument. |
| `CanonicalCbor.ReadHeadUndoes` | crates/dtx-wire/src/canonical_cbor.rs:302-318 | Every shortest-form head is read back. |
| `CborTheorems.SortSorts` | crates/dtx-wire/src/canonical_cbor.rs:260-263 | Sorting encoded keys gives a sorted permutation. |
| `CborTheorems.LexExact` | crates/dtx-wire/src/canonical_cbor.rs:260-263 | Keys are ordered by the first byte that differs, a proper prefix first. |
| `CborTheorems.CanonStable` | crates/dtx-wire/src/canonical_cbor.rs:208-275 | The value a decoder makes of an encoding encodes to the same bytes. |
| `CborTheorems.ParseSound` | crates/dtx-wire/src/canonical_cbor.rs:342-426 | Whatever the decoder accepts at a position is there in its one canonical form, within depth and item bounds, with maps in key order. |
| `CborTheorems.ParseUndoes` | crates/dtx-wire/src/canonical_cbor.rs:342-426 | Every canonical form within the bounds is read back from wherever it stands. |
| `CborTheorems.DecodeIffEncoded` | crates/dtx-wire/src/canonical_cbor.rs:173-191 | Bytes decode to a value if and only if they are its encoding and the value lists its maps canonically: decoding is injective and re-encoding restores the bytes. |
| `CborTheorems.EncodeThenDecode` | crates/dtx-wire/src/canonical_cbor.rs:129-142 | Every encoding decodes, to a value that encodes to it. |
| `CborTheorems.Examples` | crates/dtx-wire/src/canonical_cbor.rs:208-275 | Encodings of numbers, strings and simple values as in appendix A of RFC 8949. |
| `CborTheorems.ArrayExample` | crates/dtx-wire/src/canonical_cbor.rs:231-238 | An array of that appendix. |
| `CborTheorems.MapExample` | crates/dtx-wire/src/canonical_cbor.rs:239-270 | A map of that appendix, given in another order. |
| `CborParser.Parser.ReadHead` | crates/dtx-wire/src/canonical_cbor.rs:445-484 | The stateful read of an argument advances exactly as the specification says. |
| `CborParser.Parser.ParseValue` | crates/dtx-wire/src/canonical_cbor.rs:342-426 | The stateful parser returns the value, position and item count of the specification, and fails exactly with it. |
| `CborParser.Parser.ParseArray` | crates/dtx-wire/src/canonical_cbor.rs:382-389 | The array loop reads the specified members. |
| `CborParser.Parser.ParseMap` | crates/dtx-wire/src/canonical_cbor.rs:390-414 | The map loop, with its previous-key comparison, reads the specified entries. |
| `CborParser.DecodeDeterministic` | crates/dtx-wire/src/canonical_cbor.rs:173-191 | The entry point is `Decode`. |
| `CborEncoder.Encoder.Write` | crates/dtx-wire/src/canonical_cbor.rs:320-331 | Appends all or nothing under the byte limit. |
| `CborEncoder.Encoder.WriteHead` | crates/dtx-wire/src/canonical_cbor.rs:302-318 | Writes the shortest-form head exactly when it fits. |
| `CborEncoder.Encoder.EncodeValue` | crates/dtx-wire/src/canonical_cbor.rs:208-275 | The stateful encoder succeeds if and only if the canonical form exists and fits depth, items and bytes, and then appends exactly that form: none of the intermediate limit checks refuses anything else. |
| `CborEncoder.Encoder.EncodeArray` | crates/dtx-wire/src/canonical_cbor.rs:231-238 | Same for the loop over an array. |
| `CborEncoder.Encoder.EncodeKeys` | crates/dtx-wire/src/canonical_cbor.rs:241-259 | The first loop over a map, a fresh encoder per key and a projected size, fails only if the whole map cannot fit. |
| `CborEncoder.Encoder.EncodeSorted` | crates/dtx-wire/src/canonical_cbor.rs:264-268 | The second loop writes keys and values in sorted order and succeeds exactly when they fit. |
| `CborEncoder.Encoder.EncodeMap` | crates/dtx-wire/src/canonical_cbor.rs:239-270 | Both loops, the sort and the duplicate check together append the canonical map. |
| `CborEncoder.EncodeDeterministic` | crates/dtx-wire/src/canonical_cbor.rs:129-142 | The entry point is `Encode`. |
| `GroupCodec.ExactFieldsUndoes` | bins/dtx-group-node/src/domain_codec.rs:1-27 | A value has exactly the numbered fields if and only if it is their numbered map. |
| `GroupCodec.NumberedMapInjective` | bins/dtx-group-node/src/domain_codec.rs:193-201 | Numbered maps of different fields differ. |
| `GroupCodec.UtcExact` | bins/dtx-group-node/src/domain_codec.rs:182-191 | An instant is parsed from a value an encoder can produce exactly if the value is its printed form. |
| `GroupCodec.ScopeExact` | bins/dtx-group-node/src/domain_codec.rs:86-99 | A scope is parsed exactly from its printed form. |
| `GroupCodec.ScopeValueInjective` | bins/dtx-group-node/src/domain_codec.rs:203-214 | Different scopes print differently. |
| `NumberedForms.ScopeBytes` | bins/dtx-group-node/src/domain_codec.rs:203-214 | The bytes of each kind of scope. |
| `ActionProof.ActionExact` | bins/dtx-group-node/src/auth.rs:602-637 | Action codes and actions correspond one to one. |
| `ActionProof.ProofExact` | bins/dtx-group-node/src/auth.rs:568-599 | A value is accepted as this proof, with instants as an encoder writes them, if and only if it is the printed proof. |
| `ActionProof.UngenuineTimeIsNotRebuilt` | bins/dtx-group-node/src/domain_codec.rs:182-191 | Without that condition it is false: a value no encoder produces is accepted and not rebuilt. |
| `ActionProof.EncodableTimes` | bins/dtx-group-node/src/auth.rs:568-592 | The condition holds of every value that has an encoding, so of everything decoded. |
| `ActionProof.VerifiedIsReceived` | bins/dtx-group-node/src/auth.rs:382-419 | What is verified is what was received: rebuilding version, binding and signature from the parsed fields gives back the decoded value, and its encoding the received bytes. |
| `ActionProof.ProofReceived` | bins/dtx-group-node/src/auth.rs:568-599 | Each field read from the bytes of an accepted proof is the one that stands there under its own key. |
| `ActionProof.ActionNumbers` | bins/dtx-group-node/src/auth.rs:602-637 | The seven actions by their number on the wire. |
| `ActionProof.BindingInjective` | bins/dtx-group-node/src/auth.rs:382-401 | The signed binding determines everything but the signature, so local and federated proofs never share one. |
| `MlsCommand.RequestColumnsInjective` | crates/dtx-group-persistence/src/mls_sequencer/types_a.rs:480-542 | The authorization columns of a request determine the authorization within a protocol version. |
| `MlsCommand.RequestValueInjective` | crates/dtx-group-persistence/src/mls_sequencer/types_a.rs:479-676 | The digested request determines the command up to its idempotency key and the commit bytes behind their digest. |
| `MlsCommand.SignatureCovers` | crates/dtx-group-persistence/src/mls_sequencer/crypto.rs:5-249 | The transcript a device signs, in version 2 and in version 5, determines the whole command but the proof and consent digests made from it and the commit bytes behind their digest; the versions never share a transcript. |
| `MlsBody.EndorsementExact` | bins/dtx-group-node/src/body_codec.rs:348-372 | A device proof is parsed exactly from its printed form. |
| `MlsBody.StatedExact` | bins/dtx-group-node/src/body_codec.rs:90-197 | The seven authorization cases accept exactly the printed forms of their shapes. |
| `MlsBody.AuthorizationExact` | bins/dtx-group-node/src/body_codec.rs:85-197 | Same for the whole authorization field, whatever its number of entries. |
| `MlsBody.GrantExact` | bins/dtx-group-node/src/body_codec.rs:44-55 | A null and an explicit digest are never both readings of one field. |
| `MlsBody.DraftExact` | bins/dtx-group-node/src/body_codec.rs:33-90 | The fifteen fields are parsed exactly from their printed form. |
| `MlsBody.BodyOfSound` | bins/dtx-group-node/src/body_codec.rs:198-346 | Whatever survives the second match is one of the seven pairs of version and authorization, with everything its version demands, and determines the fields it came from. |
| `MlsBody.BodyOfUndoes` | crates/dtx-group-persistence/src/mls_sequencer/types_a.rs:225-476 | Every such body is built from its own fields. |
| `MlsBody.BodyExact` | bins/dtx-group-node/src/body_codec.rs:33-346 | A value is accepted as this body if and only if it is the printed body, valid, and agreeing with route, header and content type; so parsing is injective over all versions and shapes. |
| `MlsReceived.TranscriptOfReceived` | crates/dtx-group-persistence/src/mls_sequencer/crypto.rs:5-118 | Of every accepted value: the transcript has its scope, submission, the four parties, epoch, head, commit digest, key package and welcome under their own keys, zero bytes where nothing is granted, the context's key hash, and the next epoch. |
| `MlsReceived.OperationOfReceived` | crates/dtx-group-persistence/src/mls_sequencer/crypto.rs:200-249 | And the operation, membership command, approval, controller and recovery facts that field 15 of the value states, key by key, with the count of keys. |
| `MlsReceived.RequestOfReceived` | crates/dtx-group-persistence/src/mls_sequencer/types_a.rs:479-560 | The digested request repeats the fields of the accepted value under its own keys. |
| `MlsReceived.ProofOfReceived` | crates/dtx-group-persistence/src/mls_sequencer/types_a.rs:479-560 | It has the candidate's proof by its digest in version 2, zero bytes or null otherwise. |
| `MlsReceived.RequestedOfReceived` | crates/dtx-group-persistence/src/mls_sequencer/types_a.rs:480-542 | And the authorization columns and extras that field 15 states, key by key. |
| `MlsReceived.FrameDemanded` | bins/dtx-group-node/src/body_codec.rs:33-72 | Version, submission and scope of an accepted value are the context's, and its commit is within bounds under its own digest. |
| `MlsReceived.GrantsDemanded` | bins/dtx-group-node/src/body_codec.rs:44-84 | Which of key package, candidate proof and welcome an accepted value carries, by version and operation; a recovery has neither zero, and in version 5 actor and candidate identity agree. |
| `MlsReceived.OperationDemanded` | bins/dtx-group-node/src/body_codec.rs:85-346 | Which operations each version carries, in how many fields, and what the controller has endorsed: in version 5 the hash of the transcript of this very command. |
| `MlsShapes.ExactlySeven` | bins/dtx-group-node/src/body_codec.rs:90-346 | For every choice of 32-byte hashes, a pair of protocol version and authorization kind is received in some bytes if and only if it is one of seven. |
| `MlsBody.BodyBytesUnique` | bins/dtx-group-node/src/body_codec.rs:33-346 | Accepted byte strings that give the same body are equal. |
| `NumberedForms.NumberedTidy` | bins/dtx-group-node/src/domain_codec.rs:193-201 | A numbered map of up to 23 encodable fields encodes with its keys already in canonical order; depth, items and exact size follow from those of the fields. |
| `MlsWire.BodyEncodes` | bins/dtx-group-node/src/shared.rs:191-191 | Every valid body encodes within the 1,100,000 bytes a body may have and decodes back, and takes less than 20,000 bytes beyond its commit. |
| `MlsWire.ReceivedExactly` | bins/dtx-group-node/src/body_codec.rs:574-593 | Bytes are received as a body if and only if they are its one encoding and no longer than the codec decodes. |
| `MlsWire.ReceivableIff` | crates/dtx-wire/src/canonical_cbor.rs:163-191 | A valid body can be received in its context, from any bytes, if and only if its encoding is within 1,048,576 bytes: never with a commit of the largest admitted size, always with one 20,000 bytes smaller. |
| `MlsShapes.LargestCommitIsLost` | bins/dtx-group-node/src/body_codec.rs:66-69 | Of each of the seven kinds there is a valid body, with a commit of the largest admitted size, that no bytes in any context are received as. |
| `MlsWire.ReceivedOnce` | bins/dtx-group-node/src/body_codec.rs:574-593 | Bytes received as the same body are the same bytes. |
| `MlsWire.SignedEncodes` | crates/dtx-group-persistence/src/mls_sequencer/crypto.rs:120-146 | What a device signs for a valid command can always be encoded. |
| `MlsWire.RequestEncodes` | crates/dtx-group-persistence/src/mls_sequencer/types_a.rs:479-676 | Nor does encoding the request to be digested ever fail. |
| `MlsBody.RequestDeterminesCommand` | crates/dtx-group-persistence/src/mls_sequencer/types_a.rs:479-676 | Accepted bodies with one digested request carry one command, or colliding commits. |
| `Secret.Base64UrlInjective` | bins/dtx-agent-host-supervisor/src/production_v2.rs:893-950 | Distinct secrets have distinct spellings. |
| `Secret.Alphabet` | bins/dtx-agent-host-supervisor/src/production_v2.rs:893-950 | The alphabet of table 2 of RFC 4648 and two encodings. |
| `Secret.TailUndoes` | bins/dtx-agent-host-supervisor/src/production_v2.rs:915-928 | Three final digits spell two bytes exactly when their two low bits are zero. |
| `Secret.ReadDigits` | bins/dtx-agent-host-supervisor/src/production_v2.rs:903-908 | The inner loop computes the number the digits write, or finds one that is no digit. |
| `Secret.DecodeGroups` | bins/dtx-agent-host-supervisor/src/production_v2.rs:901-911 | Ten groups of four digits: the bytes produced spell the text read, and a refusal means no secret has this spelling. |
| `Secret.DecodeTail` | bins/dtx-agent-host-supervisor/src/production_v2.rs:915-928 | Same for the tail with its unused bits. |
| `Secret.PutDigits` | bins/dtx-agent-host-supervisor/src/production_v2.rs:936-944 | The inner loop of the re-encoding picks the digits of one quantum. |
| `Secret.Reencode` | bins/dtx-agent-host-supervisor/src/production_v2.rs:931-944 | The re-encoding is the Base64URL of the decoded bytes. |
| `Secret.DecodeSecret` | bins/dtx-agent-host-supervisor/src/production_v2.rs:893-950 | Succeeds if and only if the text is the quoted unpadded Base64URL of 32 bytes, leaves those bytes in the buffer, and zeros otherwise; the final comparison is shown to succeed whenever it is reached. |
| `Material.FramedExactly` | bins/dtx-agent-host-supervisor/src/wire_v2.rs:592-623 | A payload announces and contains six fields exactly when it is their envelope. |
| `Material.WriteEnvelope` | bins/dtx-agent-host-supervisor/src/wire_v2.rs:200-207 | The two loops write magic, lengths and fields. |
| `Material.EncodeFor` | bins/dtx-agent-host-supervisor/src/wire_v2.rs:179-209 | The encoder returns what the specification says, errors included. |
| `Material.CutFields` | bins/dtx-agent-host-supervisor/src/wire_v2.rs:600-623 | The two loops cut the fields out, or there is no framing at all. |
| `Material.JudgeAgrees` | bins/dtx-agent-host-supervisor/src/wire_v2.rs:550-590 | The differently ordered checks of encoder and decoder admit the same material. |
| `Material.DecodeMaterial` | bins/dtx-agent-host-supervisor/src/wire_v2.rs:592-662 | A payload decodes to material if and only if it is the encoding of that material for the operation; the error is that of the first failed check. |
| `Material.SixMaximalFieldsExceed` | bins/dtx-agent-host-supervisor/src/wire_v2.rs:22-27 | Six fields at their own bounds pass every field check and are refused for their sum. |
| `Frame.DecodeDigest` | bins/dtx-agent-host-supervisor/src/wire_v2.rs:668-689 | Accepts exactly the lower-case hexadecimal spelling of 32 bytes, and returns them. |
| `Frame.HexDigits` | bins/dtx-agent-host-supervisor/src/wire_v2.rs:682-689 | The sixteen digits, and the number each is read as. |
| `Frame.CheckHeader` | bins/dtx-agent-host-supervisor/src/wire_v2.rs:427-491 | Accepts exactly the headers for this protocol and platform with fitting numbers, spelt digests, all components and a receipt exactly in a finalization; each of the four errors is returned exactly when its condition holds, numbers being judged before digests and digests before completeness. |
| `Frame.CheckPayload` | bins/dtx-agent-host-supervisor/src/wire_v2.rs:358-366 | The payload is the one the header names. |
| `Frame.CheckMaterial` | bins/dtx-agent-host-supervisor/src/wire_v2.rs:493-543 | Every component digest names the component. |
| `Frame.CutExact` | bins/dtx-agent-host-supervisor/src/wire_v2.rs:327-352 | Header and payload are placed by a frame exactly when it is their frame. |
| `Frame.ReadFrame` | bins/dtx-agent-host-supervisor/src/wire_v2.rs:326-388 | Reads a request from a frame if and only if the frame states it: header bytes that parse to a valid header and a payload that is the encoding of material its digests name. Every refusal has the error of the first check that fails. |
| `Frame.FrameRoundTrip` | bins/dtx-agent-host-supervisor/src/wire_v2.rs:391-425 | Every encoded frame fits the frame bound and states the header with exactly the material its payload encodes. |
| `Frame.ReadBack` | bins/dtx-agent-host-supervisor/src/wire_v2.rs:326-425 | Reading an encoded frame returns its header with a material if and only if the payload encodes that material and the digests name it. |
| `Frame.ReadNames` | bins/dtx-agent-host-supervisor/src/wire_v2.rs:493-543 | Every digest in the header of a read frame is the hexadecimal one of that field of the payload; a finalization carries two fields and a receipt, a preparation six and none. |
| `Frame.ReadFields` | bins/dtx-agent-host-supervisor/src/wire_v2.rs:550-590 | Every required field of a read frame is there and within 65,536 bytes, and plan and handoff repeat no member. |
| `Frame.ReadBounds` | bins/dtx-agent-host-supervisor/src/wire_v2.rs:427-491 | And its numbers are safe and in order, for the executing platform. |
| `Frame.ReadIsEncoded` | bins/dtx-agent-host-supervisor/src/wire_v2.rs:326-425 | A frame that reads is the encoding of what it states, but for the spelling of the JSON header. |
| `StrictDer.CheckedNumberExact` | bins/dtx-agent-control/src/main.rs:781-786 | Up to eight length octets never overflow the checked fold. |
| `StrictDer.LengthExact` | bins/dtx-agent-control/src/main.rs:768-791 | A length is read exactly where its minimal definite form stands. |
| `StrictDer.LengthExamples` | bins/dtx-agent-control/src/main.rs:768-791 | Lengths of 0, 127, 128, 201 and 256 as X.690 writes them. |
| `StrictDer.TlvExact` | bins/dtx-agent-control/src/main.rs:759-802 | An element is read exactly where its one encoding stands, within the input. |
| `StrictDer.Pkcs8Exact` | bins/dtx-agent-control/src/main.rs:731-757 | An input of any length is accepted if and only if it is the fixed sixteen bytes and the 32-byte seed returned. |
| `Admission.AdmissionGate.constructor` | bins/dtx-realtime-sync-gateway/src/admission.rs:15-21 | A new gate has all global permits and no counter. |
| `Admission.AdmissionGate.TakeGlobal` | bins/dtx-realtime-sync-gateway/src/admission.rs:23-23 | Takes a global permit exactly when one is left. |
| `Admission.AdmissionGate.Register` | bins/dtx-realtime-sync-gateway/src/admission.rs:24-29 | The critical section of admission: the entry is made first, the count only below the limit. |
| `Admission.AdmissionGate.Unregister` | bins/dtx-realtime-sync-gateway/src/admission.rs:44-53 | The critical section of a drop. |
| `Admission.AdmissionGate.TryAcquire` | bins/dtx-realtime-sync-gateway/src/admission.rs:22-36 | One caller alone is admitted if and only if a global permit and a slot of its source are free; a refusal gives the global permit back. |
| `Admission.AdmissionGate.Drop` | bins/dtx-realtime-sync-gateway/src/admission.rs:43-54 | One caller alone gives back both. |
| `Admission.AcquireThenDrop` | bins/dtx-realtime-sync-gateway/src/admission.rs:22-54 | Acquiring and dropping leaves the gate as it was. |
| `Admission.StepKeeps` | bins/dtx-realtime-sync-gateway/src/admission.rs:22-54 | Every atomic step of every interleaving keeps counters and permits in line. |
| `Admission.Conservation` | bins/dtx-realtime-sync-gateway/src/admission.rs:22-54 | In every reachable state each counter is the number of live permits of its source and within the limit, the counters add up to the live permits, these are at most the permits in use, and these at most the global limit. |
| `Admission.TakesIff` | bins/dtx-realtime-sync-gateway/src/admission.rs:23-23 | After every history, a global permit is to be had exactly while fewer than the limit are out. |
| `Admission.AdmitsIff` | bins/dtx-realtime-sync-gateway/src/admission.rs:24-30 | And a caller with one is admitted exactly while its source has fewer live permits than the per-source limit. |
| `Admission.VisitLeavesNothing` | bins/dtx-realtime-sync-gateway/src/admission.rs:22-54 | A whole visit, admitted or refused, leaves the gate as it found it, whoever else is in. |
| `Admission.NeverSaturates` | bins/dtx-realtime-sync-gateway/src/admission.rs:48-48 | A permit being dropped is counted, so the saturating subtraction never saturates. |
| `Admission.ExactIff` | bins/dtx-realtime-sync-gateway/src/admission.rs:25-28 | The map holds exactly the sources with a live permit in every reachable state if and only if the per-source limit is positive or there are no global permits. |
| `Admission.ZeroLimitLeavesEntry` | bins/dtx-realtime-sync-gateway/src/admission.rs:25-28 | With limit zero one refused connection leaves an entry of count zero for its source, and the entry is there after every continuation. |
| `Admission.Quiescent` | bins/dtx-realtime-sync-gateway/src/admission.rs:43-54 | Once every caller has left, the gate is as new. |
| `HardLinks.WalkDepth` | tools/check-runtime-secret-artifacts.py:71-85 | Normalisation fails exactly when some prefix of the target climbs above the root, and the length of its result is the depth reached. |
| `HardLinks.WalkTwice` | tools/check-runtime-secret-artifacts.py:76-85 | Normalising in two legs is normalising at once. |
| `HardLinks.WalkCancels` | tools/check-runtime-secret-artifacts.py:76-85 | A name and the `..` after it cancel wherever they stand, and `.` is nothing. |
| `HardLinks.WalkExample` | tools/check-runtime-secret-artifacts.py:76-85 | So `a/b/../c` leads to `a/c`. |
| `HardLinks.SafeLinkTarget` | tools/check-runtime-secret-artifacts.py:71-85 | The loop over the parts computes the normal form; for a hard link it refuses exactly the targets that climb above the root, and its result has no `..` and is its own normal form. |
| `HardLinks.CycleHasNoEnd` | tools/check-runtime-secret-artifacts.py:131-132 | A chain that returns to a name reaches no file. |
| `HardLinks.Export.Resolve` | tools/check-runtime-secret-artifacts.py:128-137 | Memoised resolution returns the content at the end of the chain if and only if the chain has one, keeps every table entry, and terminates. |
| `HardLinks.Export.ResolveAll` | tools/check-runtime-secret-artifacts.py:139-141 | Resolving all links, in any order, succeeds if and only if every chain reaches a file, and then every name has the content at the end of its chain. |
| `HardLinks.CompleteOnce` | tools/check-runtime-secret-artifacts.py:139-141 | There is only one such table, so the order does not show. |
| `LocalTls.ApplyKeeps` | bins/dtx-dev-local-tls/src/lib.rs:123-146 | Every step, failure or crash of any run keeps the invariant: every file on disk is what some run generated for its slot, what a validation has read is of one run, and staging directories hold what their run generated. |
| `LocalTls.NeverMixed` | bins/dtx-dev-local-tls/src/lib.rs:307-347 | However runs overlap, fail and crash, whoever reports a present set has read exactly the seven artifacts of one run, provided a certificate verifies under the authority, and a key fits a certificate, of its own run only; and every check has passed: authority, signatures, names and keys. |
| `LocalTls.PassedIsSame` | bins/dtx-dev-local-tls/src/lib.rs:307-347 | A file that passes its check is of the run that the files read before it are of. |
| `LocalTls.CrashLeavesStaging` | bins/dtx-dev-local-tls/src/lib.rs:543-578 | A crash between creating the staging directory and removing it leaves it behind, and so does a failure to restrict its permissions. |
| `LocalTls.FailureCleansUp` | bins/dtx-dev-local-tls/src/lib.rs:574-580 | After a failed call between then and the end the guard removes the run's own staging directory and changes nothing else. |
| `LocalTls.FailureIsRetried` | bins/dtx-dev-local-tls/src/lib.rs:123-146 | From the start, a run alone that fails before its first rename leaves an empty directory, and the next run alone creates its own full set. |
| `LocalTls.CrashNeverReportedComplete` | bins/dtx-dev-local-tls/src/lib.rs:231-284 | A staging directory left behind blocks for good: in every interleaving no run that inspects afterwards reports the set as present or created. |
| `LocalTls.OccupiedIsKept` | bins/dtx-dev-local-tls/src/lib.rs:231-284 | A directory with files in it is never changed by runs that are yet to inspect it, and on an incomplete set they only fail. |
| `LocalTls.ReportedIsOnDiskIff` | bins/dtx-dev-local-tls/src/lib.rs:123-146 | A run validating a full directory reports only what then stays on disk, if and only if no other run has already seen the directory empty and is still to create its staging directory. |
| `LocalTls.ArmedMixes` | bins/dtx-dev-local-tls/src/lib.rs:129-142 | The failing interleaving: a reported set is overwritten in part afterwards and is of no one generation. |
| `LocalTls.MixedAfterReport` | bins/dtx-dev-local-tls/src/lib.rs:123-146 | That interleaving starts from nothing: three runs on a missing directory reach it. |
| `LocalTls.MixedIsRefused` | bins/dtx-dev-local-tls/src/lib.rs:307-347 | A mixed directory is never reported while no such run exists. |
| `LocalTls.SoloCreates` | bins/dtx-dev-local-tls/src/lib.rs:123-146 | A run alone on an empty or missing directory creates a full set of its own generation. |
| `LocalTls.SoloConfirms` | bins/dtx-dev-local-tls/src/lib.rs:126-127 | The next run alone reports that set and changes nothing. |
| `PlanNormalise.Plan.ValidateAndSort` | bins/dtx-agent-control/src/provision.rs:2816-2839 | Accepts exactly the plans whose connectors are within bounds and without repeats; sorts in place by identifier, strictly so if accepted. |
| `PlanNormalise.Check` | bins/dtx-agent-control/src/provision.rs:2826-2838 | The loop with its two sets finds exactly the repeats and bad bounds. |
| `PlanNormalise.OrderIndependent` | bins/dtx-agent-control/src/provision.rs:2824-2838 | Every arrangement of an accepted plan's connectors normalises to the same strictly sorted list. |
| `PlanNormalise.NormalisedTwice` | bins/dtx-agent-control/src/provision.rs:2824-2838 | A normalised plan is its own normal form. |
| `PlanNormalise.GeneratePending` | bins/dtx-agent-control/src/provision.rs:2841-2873 | Generates the entry of every connector from one creation time, or fails on overflow. |
| `PlanNormalise.ValidateHandoff` | bins/dtx-agent-control/src/provision.rs:2875-2919 | Valid if and only if every entry repeats its connector, one creation time explains all expiries, intents and token digests are distinct, and a pending handoff has not expired; otherwise the first entry at fault decides which error it is. |
| `PlanNormalise.FaultyOnce` | bins/dtx-agent-control/src/provision.rs:2875-2919 | Which entry that is, and with which fault, is determined. |
| `PlanNormalise.GeneratedFits` | bins/dtx-agent-control/src/provision.rs:2841-2919 | What is generated with distinct intents and tokens is valid exactly until its earliest expiry and tells its creation time from every entry. |
| `PlanNormalise.FitsIsGenerated` | bins/dtx-agent-control/src/provision.rs:2875-2919 | A handoff that fits a plan is one generated from it, but for time, intents and tokens. |
| `PlanNormalise.PlanRecovered` | bins/dtx-agent-control/src/provision.rs:2875-2919 | The connectors of the plan can be read off a handoff that fits it. |
| `PlanNormalise.PendingWindow` | bins/dtx-agent-control/src/provision.rs:2816-2873 | What is generated from an accepted plan is valid for at least one minute and at most ten. |
| `FeedQuery.NumbersExact` | bins/dtx-group-node/src/body_codec.rs:681-710 | Splitting, prefixes, digit and leading-zero checks and ranges admit exactly the printed queries. |
| `FeedQuery.ReprintImplied` | bins/dtx-group-node/src/body_codec.rs:711-714 | The final comparison with the re-printed query refuses nothing. |
| `FeedQuery.ParseExact` | bins/dtx-group-node/src/body_codec.rs:674-721 | A query is accepted if and only if it is the printed form of an epoch up to 2^53-1 and a limit from 1 to 64 under the expected path. |
| `FeedQuery.CanonicalExample` | bins/dtx-group-node/src/body_codec.rs:711-714 | A printed query. |
| `BootstrapText.SemverTame` | bins/dtx-agent-control/src/provision.rs:2363-2388 | A valid version holds only characters that no JSON encoder escapes. |
| `BootstrapText.AddressTame` | bins/dtx-agent-control/src/provision.rs:2409-2428 | So does a valid origin or MCP address. |
| `BootstrapText.EndpointTame` | bins/dtx-agent-control/src/provision.rs:2390-2454 | So does a valid endpoint, port included. |
| `AddressForms.SemverExact` | bins/dtx-agent-control/src/provision.rs:2363-2388 | A version is valid if and only if it is three decimal numbers, a pre-release and a build. |
| `AddressForms.OriginExact` | bins/dtx-agent-control/src/provision.rs:2409-2428 | An origin is valid if and only if it is the scheme and a host name, an MCP address with the fixed path after it. |
| `AddressForms.EndpointExact` | bins/dtx-agent-control/src/provision.rs:2390-2454 | An endpoint is valid for a server name if and only if it is the scheme, that host name, a port other than 443 if any, and at most a slash. |
| `Json.BackslashMarks` | bins/dtx-agent-host-supervisor/src/production_v2.rs:603-613 | A written value holds a backslash exactly when one of its strings needs an escape. |
| `Json.EscapedReads` | bins/dtx-agent-host-supervisor/src/production_v2.rs:603-613 | Whatever is written inside a string reads back as that string. |
| `Json.DecodesOnce` | bins/dtx-agent-control/src/provision.rs:2197-2204 | And the inside of a string reads as one string. |
| `Json.WrittenExample` | bins/dtx-agent-host-supervisor/src/production_v2.rs:208-212 | A written object: members in order and without blanks. |
| `Json.WrittenInjective` | bins/dtx-agent-host-supervisor/src/production_v2.rs:208-212 | Values without escapes are determined by their text. |
| `Json.RejectDuplicates` | bins/dtx-agent-host-supervisor/src/wire_v2.rs:704-767 | The visitor with its set of names per object refuses exactly the values in which some object, at any depth, names a member twice. |
| `Json.DistinctExact` | bins/dtx-agent-host-supervisor/src/wire_v2.rs:704-767 | A value repeats no member exactly if no object within it, at any depth, has two members of one name. |
| `Bootstrap.PlanJsonInjective` | bins/dtx-agent-host-supervisor/src/production_v2.rs:58-125 | Different plans serialise differently. |
| `Bootstrap.StatesOne` | bins/dtx-agent-host-supervisor/src/production_v2.rs:136-145 | A text states at most one plan. |
| `Bootstrap.StatesOneHandoff` | bins/dtx-agent-host-supervisor/src/production_v2.rs:38-56 | A text states at most one handoff. |
| `MemberNames.DistinctPlan` | bins/dtx-agent-host-supervisor/src/production_v2.rs:58-125 | No object of a plan names a member twice. |
| `MemberNames.DistinctHandoff` | bins/dtx-agent-host-supervisor/src/production_v2.rs:38-56 | Nor does a handoff whose secrets do not. |
| `Agreement.IssuedPlanIsRead` | bins/dtx-agent-control/src/provision.rs:1045-1078 | The issuer's plan has the members of the supervisor's, in the same order, at every depth. |
| `Agreement.IssuedHandoffIsRead` | bins/dtx-agent-control/src/provision.rs:1298-1315 | So has the issuer's handoff. |
| `PlanSizes.SharedMembers` | bins/dtx-agent-control/src/provision.rs:2328-2361 | A plan has the members of its request, with the state beside them. |
| `PlanSizes.SharedConnector` | bins/dtx-agent-control/src/provision.rs:2328-2361 | Its connector has those of the request's connector, with the handoff digest and the intent in their places. |
| `PlanSizes.HandoffRepeats` | bins/dtx-agent-control/src/provision.rs:1832-1852 | A handoff has operation, manifest, target, tenant and host as the request has them. |
| `PlanSizes.HandoffRepeatsConnector` | bins/dtx-agent-control/src/provision.rs:1832-1852 | And instance, enrollment request, generation, revision and expiry. |
| `Agreement.SecretRead` | bins/dtx-agent-control/src/provision.rs:2163-2170 | The text of a secret's JSON string is the quoted Base64URL that the supervisor decodes. |
| `Agreement.BackslashFreeIsLiteral` | bins/dtx-agent-control/src/provision.rs:2197-2204 | A string read from a request without backslashes needs no escape. |
| `Bootstrap.PlanConfined` | bins/dtx-agent-host-supervisor/src/production_v2.rs:217-265 | Every text of a validated plan but the display name is confined by its own check to characters that need no care. |
| `Agreement.PlanTextsIssued` | bins/dtx-agent-control/src/provision.rs:2245-2486 | Every request the issuer validates gives its plan texts the supervisor takes; the whole plan is well formed exactly if the expiry is positive and safe. |
| `Agreement.StringsAllowed` | bins/dtx-agent-host-supervisor/src/production_v2.rs:562-602 | The issuer looks at thirteen strings, yet none of the plan's strings the supervisor looks at holds a forbidden character. |
| `Agreement.CleanPlan` | bins/dtx-agent-host-supervisor/src/production_v2.rs:603-613 | An issued plan needs no escape exactly when its display name needs none. |
| `Agreement.PlanValidIff` | bins/dtx-agent-host-supervisor/src/production_v2.rs:201-286 | The supervisor validates the issued plan, under a header built from it, if and only if the expiry is positive and safe and the display name needs no escape. |
| `Agreement.HandoffAccepted` | bins/dtx-agent-host-supervisor/src/production_v2.rs:144-198 | The text of the issued handoff repeats no member and is read as the handoff it was issued for, both its secrets decode, and it is well formed if and only if the expiry is positive and safe. |
| `Agreement.HandoffStated` | bins/dtx-agent-control/src/provision.rs:1298-1315 | Every validated request gives a handoff text without escapes, repeats or oversized numbers that states the expected handoff. |
| `Agreement.IssuedIsAcceptedIff` | bins/dtx-agent-host-supervisor/src/production_v2.rs:130-198 | For every validated request and every reader that reads back what is written, the texts of plan and ready handoff are accepted by the supervisor if and only if the expiry is a positive number up to 2^53-1 and the display name needs no escape. |
| `Agreement.ReadRequestIsAcceptedIff` | bins/dtx-agent-control/src/provision.rs:2197-2204 | For a request read from a text without backslashes, if and only if the expiry is such a number. |
| `Agreement.AcceptedIsIssued` | bins/dtx-agent-host-supervisor/src/production_v2.rs:130-286 | The converse: whatever is accepted is the plan text the issuer writes for a well-formed request, a handoff repeating that request with two secrets, and the one header built from the plan; under any other header it is refused. |
| `Agreement.AcceptedUnderOneHeader` | bins/dtx-agent-host-supervisor/src/production_v2.rs:255-272 | One pair of texts is accepted as one plan under one header, but for the receipt it names. |
| `IssuedRequests.SomeReaderIsFaithful` | bins/dtx-agent-host-supervisor/src/wire_v2.rs:704-767 | The demands on a reader can be met. |
| `IssuedRequests.SomeRequestIsIssued` | bins/dtx-agent-control/src/provision.rs:2245-2289 | A request that is validated and whose material is accepted. |
| `IssuedRequests.UnsafeExpiryIsRefused` | bins/dtx-agent-control/src/provision.rs:2245-2289 | The bound on the expiry is needed for the texts too: those of the same request with an expiry of 2^53, validated a minute before, are refused by every faithful reader. |
| `Receipts.PreparedOnce` | bins/dtx-agent-host-supervisor/src/production_v2.rs:770-781 | A text states at most one prepared receipt. |
| `Receipts.FinalizedOnce` | bins/dtx-agent-host-supervisor/src/production_v2.rs:850-865 | A text states at most one finalized receipt. |
| `Receipts.PreparedRepeats` | bins/dtx-agent-host-supervisor/src/production_v2.rs:782-828 | A bound prepared receipt is the one that repeats the plan, for its credential and leaf. |
| `Receipts.PreparedHeadRepeats` | bins/dtx-agent-host-supervisor/src/production_v2.rs:719-749 | Its members are those of the plan and its host, under the same names. |
| `Receipts.PreparedTailRepeats` | bins/dtx-agent-host-supervisor/src/production_v2.rs:719-749 | And those of the plan's connector. |
| `Receipts.CredentialRepeats` | bins/dtx-agent-host-supervisor/src/production_v2.rs:719-749 | The credential in it is of the connector's generation and revision. |
| `Receipts.FinalizedNames` | bins/dtx-agent-host-supervisor/src/production_v2.rs:835-867 | A bound finalized receipt is the one that names the prepared one, and the header names it too. |
| `Receipts.DistinctPrepared` | bins/dtx-agent-host-supervisor/src/production_v2.rs:719-749 | No prepared receipt names a member twice. |
| `Receipts.DistinctFinalized` | bins/dtx-agent-host-supervisor/src/production_v2.rs:750-757 | No finalized receipt does. |
| `Receipts.ReceiptPinsMaterial` | bins/dtx-agent-host-supervisor/src/production_v2.rs:766-867 | Two validated requests that accept the same finalized receipt have the same prepared receipt, plan bytes, handoff bytes and three trust anchors, unless one of these pairs collides under the digest. |
| `Receipts.PreparedIsBound` | bins/dtx-agent-host-supervisor/src/production_v2.rs:766-828 | For every accepted request the receipt that repeats its plan is bound. |
| `Receipts.FinalizedIsBound` | bins/dtx-agent-host-supervisor/src/production_v2.rs:835-867 | And so is the finalized receipt that names it. |
| `Receipts.ExchangedIff` | bins/dtx-agent-host-supervisor/src/production_v2.rs:766-867 | For every validated request the whole exchange, plan, handoff, prepared and finalized receipt under one header, goes through if and only if the expiry is positive and safe and the display name needs no escape. |
| `Lifecycle.CommittedIsAcceptedIff` | bins/dtx-agent-host-supervisor/src/production_v2.rs:130-198 | Over every history of issuing processes, the texts of what is committed for a validated request are accepted by the supervisor if and only if the display name needs no escape, and both fit a frame. |
| `Lifecycle.ReportedIsAcceptedIff` | bins/dtx-agent-control/src/provision.rs:246-417 | Same for whatever material any process has reported: its expiry is safe, so only the display name decides. |
| `Lifecycle.ReportedIsAccepted` | bins/dtx-agent-control/src/provision.rs:2197-2204 | For requests read from a text without backslashes, as the command reads them, reported material is always accepted. |
| `Lifecycle.PublishedIsAcceptedIff` | bins/dtx-agent-host-supervisor/src/production_v2.rs:130-198 | Same for the very plan and ready handoff on disk in any reachable state. |
| `Lifecycle.SomeRequestIsReported` | bins/dtx-agent-control/src/provision.rs:246-417 | Such histories exist: one run for a concrete request reports. |

## Left out

- Networking, TLS serving, routers, HTTP headers, the streaming of request bodies and content-type matching: the protocol version, route and header values are parameters.
- PostgreSQL: the repositories appear only as the atomic insert-or-equal of one row.
- SHA-256, Ed25519 and X.509: uninterpreted functions.
- serde_json: its reader is a parameter, relied on for values written without escapes, with numbers of at most 64 bits and at most 127 nested objects; arrays, booleans and nulls do not occur in these texts and are not modelled.
- Other proofs of the group node (query, control, membership proofs) and its other bodies: they repeat the pattern of `ActionProof` and `MlsBody`.
- Argument parsing, configuration, privilege tables, reports, release tooling, the content and name rules of the image scanner: one-branch facts.
- The credential-reissue and acceptance-topology commands: same publication and handoff pattern.
- Zeroisation and secrecy.
- BindingPair.PublishPair: ownership, mode and symlink checks, and reordering of unsynced writes after power loss, are not modelled; the four names are distinct (temporary names are digests of label and path), every run names the same two paths, and the directory lock makes runs sequential.
- Issuance.SingleIssue: other operations sharing the database, with the hosts, connectors, intents and token digests they have claimed, and the parent-directory lock of the handoff are not modelled; a database error counts as the death of the process, and a commit that lands after its process has died, while another holds the lock, is not an action of the histories.
- CborParser.Parser.ParseValue: failures are not told apart by error code; the group node maps all of them to one failure.
- CborParser.DecodeDeterministic: failures are not told apart by error code.
- CborEncoder.Encoder.EncodeValue: failures are not told apart by error code.
- CborEncoder.EncodeDeterministic: failures are not told apart by error code.
- MlsBody.BodyExact: rejections are not told apart, as the program has one code for all; the request digest is a function of the command and is not stored in it.
- Agreement.IssuedIsAcceptedIff: acceptance is that of the parser alone; that reported texts also fit the fields of a frame is in `Lifecycle.CommittedIsAcceptedIff`.
- Receipts.ExchangedIff: likewise.
- Frame.ReadFrame: the header's identifiers are one opaque field.
- StrictDer.Pkcs8Exact: the public key derived from the seed is not modelled; the word size is 64 bits.
- Admission.Conservation: a poisoned mutex is not modelled, since no critical section can panic.
- HardLinks.Export.Resolve: the interpreter's recursion limit on very long chains is not modelled, nor are the size and count limits of reading the archive.
- LocalTls.NeverMixed: listing the directory is one step, each file read another; foreign files, the size bound of a file and a reused process identifier are not modelled.
- PlanNormalise.Plan.ValidateAndSort: the library sort is a function on the sequence, not an in-place algorithm.
- The validators of versions, addresses and names are modelled once for issuer and supervisor, which spell them alike.
