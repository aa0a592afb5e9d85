# Verified models of the object fabric

A Dafny model of the parts of the S3 gateway that keep manifests, backend pieces,
reference counts, leases, tokens and billing records consistent under
interleaving and partial failure, with proofs about every run, every input or
every reachable state.  `dafny verify dfyconfig.toml` checks the whole project.

- **Dedup garbage collection** (`DedupProtocol`, `DedupSafety`, `DedupExact`,
  `DedupReclaim`, `DedupRequests`, `DedupNecessity`): requests as program counters, one
  store call per step; what never dangles, what is reclaimed, what a whole request does.
- **Stored bytes** (`Sealing`, `ErasureCoding`, `ErasureRead`, `ObjectBytes`,
  `CopyObject`, `AadMigrator`, `AadSweep`, `ObjectRuns`, `NamedReads`): what a GET returns for
  every shape and envelope, that copies and AAD migrations keep it for every version,
  and when they keep it for a name without a version ID.
- **The piece read path** (`HttpRange`, `FetchPiece`): every branch serves the
  requested slice; the buffer budget never leaks.
- **Migration jobs** (`JobStore`, `JobLeases`, `PgJobStore`,
  `FleetOrchestrator`): leases, the SQL store as a simulation, the capped round.
- **Credentials** (`RefreshTokens`, `RefreshRuns`, `SqlRefreshTokens`,
  `RefreshRaces`, `Mfa`, `SqlMfa`, `Totp`).
- **Billing** (`ClickHouseSink`, `SqliteSink`, `Forecasting`), **Object Lock**
  (`ObjectLock`) and **lifecycle documents** (`LifecycleXml`).

Where the source updates state in place the model is a class whose methods are
proved equal to a function on values; the theorems about runs are about those
functions.

## Assumptions

- The AEAD opens only what it sealed under the same key and AAD; the key wrap is
  inverted by its unwrap; digests do not collide; any k of k + m Reed-Solomon
  shards determine the data.  `TransparentIsLawful` shows that the
  first three can be met together, `ParityIsLawful` the last for one parity shard.
- IDs and tokens minted by the gateway are new.  A backend that does not fail
  returns the piece that was stored, except where a theorem says "any backend".
- Integers are unbounded except where the source's width decides a result: the
  64-bit length header of the erasure coder, the 64-bit HOTP counter, and the
  64-bit numbers of a Range header.  Billing totals stay below 2^63.
- Clocks, randomness, the network and SQL faults are arguments.

## Results that differ from the source's comments

- The cache is described as holding only verified pieces.  A piece whose hash
  field is empty or unrecognised is cached as it comes (`CachedMatchesIff`).
- A GET+PUT copy and a copy sealed by the bucket's default re-hash the source piece
  without checking it, so they can serve bytes that a GET of the source refuses
  (`CorruptionIsServed`; exactly when, over every route: `CopyAgreesIff`).
- COMPLIANCE can be lost in two ways.  Amending a version is a read and a later
  write of the whole manifest, so a write that overlaps an accepted extension can
  undo it (`OverlappingWriteUndoesExtension`).  And a dedup COPY takes its version ID
  from the source's piece, so repeating it replaces the locked version
  (`RecopyUnlocks`).  `LockHoldsIff` says exactly when a lock holds;
  `ComplianceHolds` and `SerialLockHolds` derive the guarantee.
- The AAD migrator switches with `Manifests.Put`, which makes the version it writes
  the current one.  Re-sealing a superseded version therefore changes what a GET
  without a version ID returns, and brings back an object hidden by a delete marker
  (`SupersededVersionReturns`; exactly when: `MigrateKeepsNameIff`,
  `SweepKeepsNameIff`, `NameHoldsIff`).
- A DELETE reclaims the piece it read.  When a migration has switched the version in
  between, or the row it drops was registered anew, the piece that loses its name stays
  on the backend for ever (`OverlappingMigrationLeaks`, `OverlappingRowDropLeaks`;
  exactly when: `AccountedIff`, `AlwaysAccountedIff`).
- In Postgres a family revocation does not see a successor that a concurrent rotation
  commits while it waits (`SiblingEscapes`; exactly when: `ReuseKillsFamilyIff`).
- The identity bytes of a sealed object join tenant and bucket by a pipe, so they
  tell identities apart only up to that text (`ChunkAADEqualIff`, `PipesCollide`).
- A second Close of the ClickHouse sink can return before the first has recorded its
  batch (`SecondCloseIsEarly`; exactly when: `LaterCloseCompleteIff`).
- A lifecycle date that becomes an instant of year 10000 in UTC is accepted and
  printed, and no longer parses (`YearTenThousandIsLost`, `ConfigRoundTrip`).
- A DELETE that tolerates a missing manifest still decrements the refcount
  (`DeleteSoundIff`), and an empty node ID is taken for the owner of an unclaimed
  job by the memory store only (`EmptyNodeAgreesIff`), where it can release a
  terminal job again (`TerminalReleasedAgainIff`).
- `totpStep` is described as a floor; it divides towards zero, which moves every window
  before 1970 by one period (`WindowBefore1970`).
- Positions of a Range may carry a sign: `bytes=5--3` is accepted as an open range
  and `bytes=+5-7` as 5 to 7 (`AcceptedInGrammarIff`).

## Model

| member | source | states |
|---|---|---|
| DedupSafety.NoDanglingManifest | api/s3compat/dedup.go:388-557 | Over every interleaving, call by call, of any number of dedup PUTs, plain PUTs, COPYs, DELETEs and AAD migrations, with any call allowed to fail: every committed manifest's piece exists, a manifest with a content hash names its index row's piece in its own tenant with the hashed bytes, every row's piece exists, and each refcount is at least the manifests plus the in-flight requests that rely on it. Hypotheses: one deleter per version, the row still names the same piece at IncrementRef, and Register and Manifests.Put report an error only when they had no effect |
| DedupSafety.StepKeepsInv | api/s3compat/dedup.go:325-337 | Each single store call of each kind of request keeps the protocol invariant; the race-lost path (increment, then look the row up) needs no same-piece hypothesis |
| DedupSafety.RunKeepsInv | api/s3compat/handler.go:2740-2805 | The invariant (committed pieces exist, references are covered) holds after every run from the empty gateway; what each request removes and leaves behind is stated by ManifestsAfter, AlwaysAccountedIff and the DedupRequests rows |
| DedupExact.PieceOwnership | api/s3compat/copy.go:807-821 | In every run two manifests that name one piece both carry the same content hash in one tenant, so a piece behind a manifest without a content hash is that manifest's alone |
| DedupExact.RefCountIsExact | api/s3compat/handler.go:2757-2805 | In every run without failed decrements, lost acknowledgements or copies onto an earlier copy of the same piece, each refcount equals the manifests and in-flight requests that rely on it |
| DedupExact.IncrementSoundIff | api/s3compat/dedup.go:246-253 | An IncrementRef after a stale Lookup, or after a COPY read its source, keeps the invariant if and only if the row still names the piece that was read |
| DedupExact.DeleteSoundIff | api/s3compat/handler.go:2741-2760 | The DecrementRef after a Manifests.Delete is covered by a reference of its own if and only if that Delete still found the version; tolerating ErrNotFound spends another's reference |
| DedupReclaim.ManifestsAfter | api/s3compat/handler.go:2741-2744 | Every successful call of every kind of request changes the manifests exactly so: a commit stores its own, a switch replaces its version, a Manifests.Delete removes its version whether or not it carries a content hash, and no other call touches one |
| DedupReclaim.DeleteGoesOn | api/s3compat/handler.go:2741-2805 | After a successful Manifests.Delete the version is gone, and the DELETE goes on to remove a piece of its own or to uncount a shared one |
| DedupReclaim.AccountedIff | api/s3compat/handler.go:2757-2805 | A successful call keeps every stored piece accounted for (named by a row or a manifest without content hash, or held by a request that will publish or remove it) if and only if the piece it takes the name from is the one it read, or another request holds it |
| DedupReclaim.AlwaysAccountedIff | api/s3compat/handler.go:2740-2805 | Over every run whose calls succeed, however requests overlap, every stored piece is accounted for at every moment if and only if no call leaves a piece behind |
| DedupReclaim.NothingLeftBehind | api/s3compat/handler.go:2740-2805 | After every run whose calls succeed and in which no two requests are at work on one version or one row to be dropped, once it has come to rest, the stored pieces are exactly those named by an index row or by a manifest without content hash |
| DedupReclaim.EveryPieceIsServed | api/s3compat/handler.go:2757-2805 | With exact counts as well, the stored pieces are then exactly those some manifest names: every DELETE reclaimed what it should, and nothing else |
| DedupRequests.ThenIsCall | api/s3compat/dedup.go:388-557 | A call of a request in a run is the call the following rows are about, and moves no other request |
| DedupRequests.PutOfKnownContent | api/s3compat/dedup.go:232-262 | From Lookup to commit, a dedup PUT of known content adds one manifest on the stored piece and one to its count, and writes no piece |
| DedupRequests.PutOfNewContent | api/s3compat/dedup.go:427-541 | A dedup PUT of new content leaves its own piece, a row that counts one, and the manifest |
| DedupRequests.PutLosesRace | api/s3compat/dedup.go:446-490 | A dedup PUT that finds the content registered meanwhile removes its own piece, counts itself on the other and names that in its manifest |
| DedupRequests.CommitFails | api/s3compat/dedup.go:542-557 | A dedup PUT or COPY whose commit fails gives its reference back and changes nothing else |
| DedupRequests.PlainPut | api/s3compat/handler.go:1131-1177 | A PUT without dedup leaves its own piece under a manifest without content hash |
| DedupRequests.PlainPutFails | api/s3compat/handler.go:1171-1177 | If its commit fails, pieces and manifests are as before |
| DedupRequests.CopyShares | api/s3compat/copy.go:307-314 | A COPY of a deduplicated version stores the same manifest under the destination and counts it once more |
| DedupRequests.CopyDuplicates | api/s3compat/copy.go:322-384 | A COPY of any other version writes the same bytes to a piece of its own |
| DedupRequests.CopyFallsBack | api/s3compat/copy.go:315-320 | A COPY whose row has gone meanwhile copies the bytes instead |
| DedupRequests.DeleteOfOwnPiece | api/s3compat/handler.go:2741-2805 | A DELETE of a version without content hash removes its manifest and its piece |
| DedupRequests.DeleteOfSharedPiece | api/s3compat/handler.go:2757-2803 | A DELETE of a deduplicated version that others share removes its manifest and one from the count |
| DedupRequests.DeleteOfLastReference | api/s3compat/handler.go:2769-2783 | A DELETE of the last version on a piece removes manifest, row and piece |
| DedupRequests.RowGone | api/s3compat/handler.go:2760-2765 | A DELETE, and a PUT that lost its race, that find no row remove the piece they know of |
| DedupRequests.RowBusy | api/s3compat/handler.go:2784-2793 | A DELETE that finds its emptied row counted again, or gone, leaves row and piece alone |
| DedupRequests.Migration | api/s3compat/aad_migrator.go:337-409 | A migration leaves the version on its new piece and removes the old one |
| DedupRequests.MigrationFails | api/s3compat/aad_migrator.go:379-392 | If its switch fails, the new piece is removed and the version is as it was |
| DedupRequests.FirstCallFails | api/s3compat/handler.go:2715-2744 | A DELETE that is refused its Manifests.Delete, and every request whose read, increment or write fails, changes nothing |
| DedupNecessity.StaleLookupDangles | api/s3compat/dedup.go:246-262 | Without the same-piece hypothesis an unsafe state is reachable, by calls that all succeed |
| DedupNecessity.DoubleDeleteDangles | api/s3compat/handler.go:2740-2744 | Without the one-deleter hypothesis an unsafe state is reachable, by calls that all succeed |
| DedupNecessity.LostRegisterDangles | api/s3compat/dedup.go:325-337 | If Register may take effect and still report an error, an unsafe state is reachable |
| DedupNecessity.LostPutDangles | api/s3compat/handler.go:1170-1177 | If Manifests.Put may take effect and still report an error, an unsafe state is reachable |
| DedupNecessity.OverlappingMigrationLeaks | api/s3compat/handler.go:2740-2805 | A DELETE that read its version before a migration switched it removes the manifest and the piece it read; the migrated piece stays for ever, named by nothing |
| DedupNecessity.OverlappingRowDropLeaks | api/s3compat/handler.go:2769-2783 | A DELETE that emptied a row and drops it after the same content was registered, and deleted, again takes the name from a piece it never read; that piece stays for ever |
| DedupExact.LostPublicationSoundIff | api/s3compat/dedup.go:325-337 | A Register or Manifests.Put that took effect and reports an error keeps the invariant if and only if the loss is covered: a Register that lost its race, a commit whose row's count has one to spare, a copy over its own earlier manifest; a PUT without dedup and a migration never |
| DedupExact.LostWhereExactIff | api/s3compat/handler.go:1170-1177 | Where counts are exact, a dedup PUT's lost commit never keeps the invariant and a copy's does if and only if it replaced its own earlier manifest |
| Sealing.ChunkAADEqualIff | api/s3compat/encryption_pipeline.go:57-59 | Two identities with hex digests for key hashes and minted versions have the same identity bytes if and only if key hash and version agree and the texts tenant pipe bucket agree |
| Sealing.ChunkAADInjective | api/s3compat/encryption_pipeline.go:57-59 | So with tenants that contain no pipe, whatever the buckets, only equal identities share their identity bytes |
| Sealing.PipesCollide | api/s3compat/encryption_pipeline.go:57-59 | The encoding is not injective: tenant "1 pipe 2" with bucket "3" and tenant "1" with bucket "2 pipe 3" share their identity bytes for every key hash and version (equal minted versions of two tenants would themselves need a digest collision) |
| Sealing.SealRoundTrip | api/s3compat/encryption_pipeline.go:188-223 | What encryptForStorage seals, decryptFromStorage opens under the same identity |
| Sealing.SealBindsIdentity | api/s3compat/encryption_pipeline.go:165-170 | Sealed bytes open under another identity if and only if key hash, version and the text tenant pipe bucket are the same |
| Sealing.TransparentIsLawful | api/s3compat/encryption_pipeline.go:123-128 | The laws asked of the AEAD, the key wrap and the digest are satisfiable together |
| ErasureCoding.EncodeObject | metadata/erasure_coding/encoder.go:129-183 | The stripe loop returns the labelled shards of the framed, padded object, stripe by stripe |
| ErasureCoding.EncodedShape | metadata/erasure_coding/encoder.go:129-183 | Encode writes exactly one shard for every stripe and index, all with the bytes of the systematic code |
| ErasureCoding.FramedAt | metadata/erasure_coding/encoder.go:129-145 | Byte by byte, what is cut into stripes is the 64-bit length with the most significant byte first, the object, and zeros |
| ErasureCoding.DataShardIs | metadata/erasure_coding/encoder.go:146-183 | Data shard i of stripe s is the slice of the framed object that starts at s stripes and i shards |
| ErasureCoding.ParityShardIs | metadata/erasure_coding/encoder.go:146-183 | Parity shard i of stripe s is the one the code computes from that stripe's data shards |
| ErasureCoding.GroupShards | metadata/erasure_coding/encoder.go:192-222 | Grouping succeeds if and only if every index is in range and every size right, and holds for each stripe the last non-empty shard per index |
| ErasureCoding.DecodeShards | metadata/erasure_coding/encoder.go:192-259 | The decoder loop computes Attempt: group, rebuild each stripe in turn, trim by the 64-bit length header, ending in bytes, a rejection or a panic |
| ErasureCoding.PanicsIff | metadata/erasure_coding/encoder.go:247-259 | The final slice panics if and only if the declared length is within eight of 2^64, where the 64-bit end wraps |
| ErasureCoding.DecodeInvertsEncode | metadata/erasure_coding/encoder.go:185-259 | From any shards that are each missing or as written, with at least k present in every stripe, Decode returns exactly the encoded object |
| ErasureCoding.ParityIsLawful | metadata/erasure_coding/encoder.go:129-183 | The law asked of the code can be met: with one parity shard, for any number of data shards, column sums recover any single loss |
| ErasureRead.GatherShards | api/s3compat/erasure_coding.go:341-419 | The fetch loop succeeds if and only if no stream breaks and no stripe loses more shards than it has parity, and then returns one shard per piece, blank where lost or corrupted; otherwise its error is that of the first piece that cannot be made up for |
| ErasureRead.OneError | api/s3compat/erasure_coding.go:341-419 | That first piece, and so the error, is determined by the backends alone, and there is none when the object is recoverable |
| ErasureRead.Reconstruct | api/s3compat/erasure_coding.go:304-420 | The read succeeds if and only if the object is recoverable and its shards decode; data loss and a broken backend are reported if and only if the first piece that cannot be made up for is of that kind; a decoder rejection and a panic name a cause that is really there |
| ErasureRead.ReadIsExact | api/s3compat/erasure_coding.go:187-230 | For an object written with digests, under any later state of the backends, a read returns exactly the written bytes when no stream breaks and every stripe has at most m losses, and otherwise fails; never other bytes |
| ErasureRead.ReadSurvivesIff | api/s3compat/erasure_coding.go:304-420 | With no stream breaking, the object written is read back if and only if no stripe has more shards gone or altered on the backends than it has parity |
| ErasureRead.UnrecognizedClaimsTrustBackend | api/s3compat/erasure_coding.go:394-412 | With unrecognised hash claims whatever complete encoding the backend holds is what is read |
| ObjectBytes.GetFrame | api/s3compat/erasure_coding.go:554-677 | A GET of any shape depends only on the pieces its own manifest names |
| ObjectBytes.SingleReadIff | api/s3compat/handler.go:1440-1475 | A single-piece GET returns a content if and only if the stored bytes do not contradict the claimed digest and are that content or, in a mode the gateway seals, open to it |
| ObjectBytes.MultipartReads | api/s3compat/erasure_coding.go:554-677 | A multipart GET returns the contents of its parts in order, if the recorded size is within the limit and agrees with them, and otherwise fails |
| ObjectBytes.LostPartFails | api/s3compat/erasure_coding.go:554-677 | It fails when any part is missing, corrupted or does not open |
| ObjectBytes.SealedIsRead | api/s3compat/copy.go:636-694 | A freshly sealed and stored single-piece object, managed or for public distribution, reads back as its plaintext |
| CopyObject.CopyPreservesBytes | api/s3compat/copy.go:217-384 | Whatever route Copy picks, from every source shape and envelope, a destination that is written reads exactly as the source |
| CopyObject.CopySucceedsIff | api/s3compat/copy.go:217-624 | A copy of a readable source is written if and only if its route's conditions hold (backend write, keyring, buffer limit, resolvable destination mode); opening the source never stands in the way |
| CopyObject.CopyShape | api/s3compat/copy.go:295-384 | A copy shares the source's piece, under that piece's version and with its content hash, if and only if the source is a single piece with a content hash and no v1 binding, its index row takes one more reference, and a plaintext source does not go to a bucket that seals; otherwise it writes one fresh piece under its own version and no content hash |
| CopyObject.CopyEncryption | api/s3compat/copy.go:217-384 | The encryption of a written copy: a plaintext source takes the destination bucket's mode when that is managed or public distribution, with a new key and the v1 binding; every other source keeps its mode; a sealed source that is v1 or not a single piece is sealed anew with a new key and the v1 binding; anything else keeps its envelope |
| CopyObject.CopyStores | api/s3compat/copy.go:398-533 | The bytes a copy stores: the content sealed under its new key for its own identity, the source's piece as it is, or the reassembled content |
| CopyObject.CopyFrame | api/s3compat/copy.go:320-384 | A copy changes the GET of no object that does not name its new piece |
| CopyObject.VerbatimV1Unreadable | api/s3compat/copy.go:265-283 | A v1 ciphertext copied as it is to another identity is readable if and only if that identity binds the same bytes, so re-sealing is needed for every other destination |
| CopyObject.CopyAgreesIff | api/s3compat/copy.go:217-788 | Over every route and every source, corrupted ones included, a written copy serves what a GET of the source answers if and only if the source is erasure coded or multipart, the piece is shared or copied by the backend, the stored bytes match the source's claim, or (for a GET+PUT copy) they do not open at all |
| CopyObject.CorruptionIsServed | api/s3compat/copy.go:767-788 | A plaintext piece that GET refuses as corrupted is served from its copy, by GET+PUT or sealed under the bucket's default |
| CopyObject.CorruptedByteIsServed | api/s3compat/copy.go:479-533 | Such an input: one byte under another byte's digest, copied into a plain and into a sealing bucket |
| CopyObject.Gateway.ReadObject | api/s3compat/erasure_coding.go:304-438 | The read loops for the three shapes compute Get |
| CopyObject.Gateway.ReadByName | metadata/manifest_store/memory/store.go:68-88 | A GET without a version ID reads the version the name points to, and nothing for a name without one or with a delete marker |
| CopyObject.Gateway.Copy | api/s3compat/copy.go:154-384 | The handler's new pieces, manifests and current version, on success, on every failure and after its rollback: a shared piece is never taken away, a fresh one is |
| ObjectRuns.StepKeepsInv | api/s3compat/copy.go:868-905 | Each store step of each copy and migration, failed or not, keeps ownership and readability |
| ObjectRuns.StepPublishes | metadata/manifest_store/store.go:36-43 | A commit or switch stores exactly its manifest and makes it the current version of its name; no other step touches a manifest |
| ObjectRuns.StepCleansUp | api/s3compat/copy.go:868-905 | An aborted copy or migration whose clean-up succeeds leaves none of its own piece, and a finished migration none of the piece it replaced |
| ObjectRuns.EveryObjectReads | api/s3compat/aad_migrator.go:285-409 | At every moment of every run of interleaved copies and migrations every object is readable |
| ObjectRuns.AnyObjectStarts | api/s3compat/copy.go:217-290 | Runs may start from any readable object of any shape and envelope |
| ObjectRuns.BytesAreStable | api/s3compat/aad_migrator.go:285-409 | Whatever steps of copies and migrations run, fail or stop, the bytes of a version change only by a copy committed onto it; so after each single step of migrateOne a fresh read of that version gives the same plaintext under the same identity |
| ObjectRuns.CopyReadsAsSource | api/s3compat/copy.go:217-384 | A copy that loads, writes and commits with any other steps in between leaves a destination that reads exactly as the source read at the load; copies of copies follow |
| AadMigrator.ResealedReads | api/s3compat/aad_migrator.go:310-376 | Re-sealing an eligible readable object always succeeds, keeps identity, mode and bytes, and makes it ineligible |
| AadMigrator.MigrateReads | api/s3compat/aad_migrator.go:285-409 | At whatever call migrateOne fails, the version it works on reads the same |
| AadMigrator.MigrateTouches | api/s3compat/aad_migrator.go:337-409 | A migration touches only its new piece, the piece it replaces, its own manifest and, when it switches, the current version of its name |
| AadMigrator.MigrateStores | api/s3compat/aad_migrator.go:337-409 | A migration that switches leaves its new piece in place of the old, which stays only if its removal fails; any other leaves the pieces as they were, except that a failed switch whose clean-up fails leaves the new piece |
| AadMigrator.CountersPartition | api/s3compat/aad_migrator.go:212-244 | At every point of every sweep the seven outcome counters add up to Scanned, which is the number of objects visited |
| AadSweep.MigrateEndsIff | api/s3compat/aad_migrator.go:256-409 | A visit ends in a given outcome if and only if the object is of that class by its fields: not sealed by the gateway, already v1, deduplicated, not a single piece, over the limit by its recorded or its stored size, failed by the given fault, or migrated |
| AadSweep.MigrateReseals | api/s3compat/aad_migrator.go:285-409 | A visit gives the v1 binding, in the same mode, to exactly the objects of the migrated class, and leaves every other manifest as it was |
| AadSweep.CountersCount | api/s3compat/aad_migrator.go:212-244 | At every point of every sweep each of the seven counters is the number of objects of its class visited so far |
| AadSweep.SweepTreats | api/s3compat/aad_migrator.go:200-250 | After any number of visits, with any faults, each visited object is re-sealed if and only if it is of the migrated class |
| AadMigrator.SweepKeepsReads | api/s3compat/aad_migrator.go:200-250 | A sweep, complete or cut short, with any faults, changes the GET of no version |
| AadMigrator.SweepSettles | api/s3compat/aad_migrator.go:200-279 | After a complete sweep without errors every object is of a class that a sweep leaves alone or over the size limit; which, by its fields, is SweepBinds |
| AadSweep.SweepBinds | api/s3compat/aad_migrator.go:200-279 | After a complete sweep without errors an object has the v1 binding if and only if it had it before, or is managed or for public distribution, without content hash, a single piece, and within the limit by its recorded and its stored size |
| AadMigrator.SecondSweepMigratesNothing | api/s3compat/aad_migrator.go:200-250 | After a complete sweep without errors any further sweep, in any order and with any faults, migrates nothing and changes nothing |
| AadMigrator.AADMigrator.MigrateOne | api/s3compat/aad_migrator.go:285-409 | The step-by-step method computes Migrate, with every failure point and the Put that makes the version current |
| AadMigrator.AADMigrator.Sweep | api/s3compat/aad_migrator.go:200-250 | The paging loop, with page snapshots, scan failures and cancellation, computes the sweep of exactly the objects it counted, all of them when it completes; what that sweep does to each object is SweepTreats, and what each counter counts is CountersCount |
| NamedReads.MigrateKeepsNameIff | api/s3compat/aad_migrator.go:379-382 | A migration keeps the GET of a name if and only if the name is another one, nothing was switched (by eligibility, size and fault), or the migrated version was current or reads the same bytes |
| NamedReads.SweepKeepsNameIff | api/s3compat/aad_migrator.go:200-250 | After a sweep, complete or cut short, with any faults, a name reads as the last of its versions that was switched, and as before when none was; its GET is kept if and only if none was or that version read the same |
| NamedReads.SweepOfCurrentKeepsNames | metadata/manifest_store/store.go:36-43 | A sweep that switches current versions only changes the GET of no name |
| NamedReads.SupersededVersionReturns | metadata/manifest_store/memory/store.go:40-50 | A legacy version superseded by a newer one or by a delete marker is what the name reads after a sweep |
| NamedReads.StepByName | metadata/manifest_store/store.go:36-43 | Any single step of a copy or migration, failed or not: a name reads what the step brings to it (the copy's source bytes, or the migrated version's), and otherwise as before |
| NamedReads.NameHoldsIff | metadata/manifest_store/store.go:36-62 | Over every run of interleaved copies and migrations, a name reads the same at every moment if and only if each commit and each switch of one of its versions brings the bytes it already read |
| NamedReads.CopyServedByName | api/s3compat/copy.go:217-384 | From a copy's commit until the next write of its name, a GET of the name returns the bytes the source had at the load |
| HttpRange.AcceptedIsSatisfiable | api/s3compat/handler.go:3189-3243 | Every accepted header names a non-empty range inside the object |
| HttpRange.ParsesSpan | api/s3compat/handler.go:3225-3243 | "bytes=first-last" (section 2.1 of RFC 7233), in any digits, is accepted if and only if first is at most last and inside the object, with last capped |
| HttpRange.ParsesOpenSpan | api/s3compat/handler.go:3225-3243 | "bytes=first-", in any digits, is accepted if and only if first is inside the object |
| HttpRange.ParsesSuffix | api/s3compat/handler.go:3202-3223 | "bytes=-n", in any digits, is the last n bytes, the whole object beyond its size, and unsatisfiable for zero |
| HttpRange.HugePositionRejected | api/s3compat/handler.go:3202-3243 | A position beyond 64 bits is refused wherever it stands |
| HttpRange.AcceptedInGrammarIff | api/s3compat/handler.go:3189-3243 | An accepted header is in the RFC's grammar of digit positions if and only if its specification has no plus sign and exactly one dash |
| HttpRange.NegativeLastIsOpen | api/s3compat/handler.go:3229-3243 | Every negative last position is accepted and read as open |
| HttpRange.DoubleDashAccepted | api/s3compat/handler.go:3229-3243 | "bytes=5--3" is accepted as an open range, outside the grammar |
| HttpRange.PlusSignAccepted | api/s3compat/handler.go:3225-3243 | "bytes=+5-7" is accepted as 5 to 7, outside the grammar |
| HttpRange.ContentRangeRoundTrip | api/s3compat/handler.go:3245-3251 | The Content-Range of a satisfiable range, read back as a Range, is that range, of the announced length |
| FetchPiece.ReadPath.Fetch | api/s3compat/handler.go:1866-2234 | Every exit path gives back the semaphore weight; the result and the cache are those of the two halves |
| FetchPiece.FetchIsSlice | api/s3compat/handler.go:1866-2234 | For any cache, budget and failure state, and any cache changes in between, every non-error branch returns exactly the requested slice, of the length GET and HEAD announce |
| FetchPiece.AcceptedHeaderIsServed | api/s3compat/handler.go:1386-1397 | The same for every Range header the parser accepts |
| FetchPiece.FetchFailsIff | api/s3compat/handler.go:1866-2322 | With honest sources a cache hit fails if and only if a range is asked and the cached body cannot be read; any other call fails if and only if the backend fails without a repair, the stream breaks while buffered, or the budget refuses a range and the refetch fails |
| FetchPiece.CheckedFetchMatches | api/s3compat/handler.go:2169-2215 | With a recognised digest and any backend, a served body is a slice of bytes that match it, except on the unchecked streams (oversize, or refused by the budget) |
| FetchPiece.TrustedIff | api/s3compat/handler.go:2046-2215 | A call that misses the cache serves slices of matching bytes for every backend if and only if it is not one of the unchecked streams (a range of a piece without a hash, a size over the ceiling, or a body the budget has no room for); each of those serves whatever it is sent |
| FetchPiece.SemaphoreNeverLeaks | api/s3compat/handler.go:2046-2167 | Over every interleaving the weight in use is that of the calls in flight, never above the budget, and zero when none is left |
| FetchPiece.AnsweredOnce | api/s3compat/handler.go:1866-2234 | Over every interleaving each call is answered once: at once, or when its buffering ends |
| FetchPiece.CacheHoldsMatches | api/s3compat/handler.go:2175-2212 | Over every interleaving with any backend, what is cached for a piece with a recognised digest matches it |
| FetchPiece.BufferedIsCached | api/s3compat/handler.go:2169-2215 | A call that buffers its piece leaves it in the cache: any later call for the piece, whole or ranged, is served from there whatever the backend and the budget have become |
| FetchPiece.BufferedWithinBudget | api/s3compat/handler.go:2046-2167 | Over every interleaving the bodies buffered at once together stay within the budget |
| FetchPiece.CachedMatchesIff | api/s3compat/handler.go:2175-2212 | Of the bodies a call buffers and serves, the cached bytes match a digest if and only if the piece's hash field is a recognised one; otherwise they are cached unchecked |
| JobStore.InMemoryJobStore.PutJob | migration/jobstore.go:171-184 | The stored job and queue after an enqueue, and its refusals |
| JobStore.InMemoryJobStore.AcquireJob | migration/jobstore.go:190-217 | The claim taken, or the reason it is refused |
| JobStore.InMemoryJobStore.HeartbeatJob | migration/jobstore.go:224-239 | The lease extended for the owner only |
| JobStore.InMemoryJobStore.ReleaseJob | migration/jobstore.go:245-275 | The terminal state recorded for the owner only |
| JobStore.InMemoryJobStore.ListActiveJobs | migration/jobstore.go:282-296 | The listing is the queue's pending and running jobs; ListingInOrder states their order |
| JobLeases.FixedTtlNeverShortens | migration/jobstore.go:224-239 | With a nondecreasing clock and a fixed TTL per node no node shortens its lease |
| JobLeases.LeasesDisjoint | migration/jobstore.go:190-239 | Over every run the leases granted to two different nodes on one job never overlap |
| JobLeases.ShortenedLeaseOverlaps | migration/jobstore.go:224-239 | A heartbeat that shortens its own lease lets another node in while the first grant runs |
| JobLeases.TerminalIsFinal | migration/jobstore.go:245-275 | A terminal job's record never changes again |
| JobLeases.ReleasedOnce | migration/jobstore.go:245-275 | At most one release per job succeeds |
| JobLeases.ReleaserIsLatestAcquirer | migration/jobstore.go:190-275 | The release that succeeds comes from the node that acquired last |
| JobLeases.AcquiredIff | migration/jobstore.go:190-217 | After every run an acquire is accepted if and only if the job is pending, or it runs and the latest grant on it was to the same node or has ended |
| JobLeases.HolderServedIff | migration/jobstore.go:224-275 | After every run a heartbeat or release is accepted if and only if the job runs and the latest grant on it was to the caller |
| JobLeases.RecordIs | migration/jobstore.go:171-275 | After every run a job's record is the submitted one, started at its first acquire unless submitted with a start time, and, once released, with the releaser's outcome, counts and error and the time of the release, whoever held it in between |
| JobLeases.EmptyNodeReleasesTwice | migration/jobstore.go:245-275 | With an empty node ID a job can be released twice |
| JobLeases.TerminalReleasedAgainIff | migration/jobstore.go:245-275 | After every run, of any nodes, a terminal job is released again if and only if the caller's node ID is empty |
| PgJobStore.PgStore.AcquireJob | migration/pg_lock.go:119-161 | The conditional UPDATE and the reading of its row count |
| PgJobStore.PgStore.HeartbeatJob | migration/pg_lock.go:168-198 | The fenced lease UPDATE |
| PgJobStore.PgStore.ReleaseJob | migration/pg_lock.go:205-254 | The fenced terminal UPDATE |
| PgJobStore.PgSimulatesMemory | migration/pg_lock.go:72-254 | For named nodes and fresh jobs every operation sequence with the same clock gets the same replies from both stores and leaves them in matching states |
| PgJobStore.ListingsAgree | migration/pg_lock.go:260-276 | Both stores list the same active jobs |
| PgJobStore.EmptyNodeAgreesIff | migration/pg_lock.go:168-254 | On an empty node ID the stores agree if and only if the job is missing or claimed |
| FleetOrchestrator.Orchestrator.RunOnce | migration/fleet_orchestrator.go:249-299 | The two loops compute the dispatch round and return the number dispatched; what the round is, on the queue itself, is RunOnceIsRound |
| FleetOrchestrator.CapIs | migration/fleet_orchestrator.go:158-165 | A cell's cap is the last limit configured for it, at least one, and one without any |
| FleetOrchestrator.CountRunning | migration/fleet_orchestrator.go:258-269 | The first loop counts the running jobs of each cell |
| FleetOrchestrator.ListingInOrder | migration/jobstore.go:282-296 | A job submitted before another is listed before it |
| FleetOrchestrator.ChosenAreStarting | migration/fleet_orchestrator.go:263-299 | The jobs the loops pick from the listing are those the queue itself puts first in each cell |
| FleetOrchestrator.RunOnceIsRound | migration/fleet_orchestrator.go:249-310 | A RunOnce leaves every cell with max(running, min(limit, running + pending)) running jobs, starts exactly the pending jobs of the queue that have fewer pending ones of their cell before them, in submission order, than the cell has places free, claims them for this node and changes nothing else |
| RefreshTokens.MemoryRefreshTokenStore.IssueToken | api/console/refresh_token_store.go:186-195 | A new family with one row |
| RefreshTokens.MemoryRefreshTokenStore.RotateToken | api/console/refresh_token_store.go:198-240 | The rows and the reply of a rotation in each of its cases |
| RefreshTokens.MemoryRefreshTokenStore.RevokeFamilyLocked | api/console/refresh_token_store.go:294-300 | The loop removes exactly the rows of one family |
| RefreshRuns.RotatesAtMostOnce | api/console/refresh_token_store.go:198-240 | In every run each token rotates successfully at most once |
| RefreshRuns.ReplayIsDetected | api/console/refresh_token_store.go:215-220 | Replaying a rotated, unexpired, still stored token is answered as reuse |
| RefreshRuns.ReuseKillsFamily | api/console/refresh_token_store.go:215-220 | After reuse the family is empty for ever and none of its tokens is accepted again |
| RefreshRuns.TokenLives | api/console/refresh_token_store.go:186-240 | A granted token that nothing has ended is accepted until it expires, with a successor for the same tenant and a full lifetime, and refused from then on |
| RefreshRuns.RevokedIsRefused | api/console/refresh_token_store.go:242-300 | A token that was revoked, alone or with its tenant, is refused ever after |
| RefreshRuns.FamilyNeverForks | api/console/refresh_token_store.go:186-300 | Every family has one tenant and at most one unconsumed row |
| SqlRefreshTokens.SqlRefreshTokenStore.RotateToken | api/console/postgres_refresh_store.go:75-144 | The transactional rotation, committed or rolled back at any statement |
| SqlRefreshTokens.FailsIff | api/console/postgres_refresh_store.go:50-169 | A call reports a database error if and only if a statement it reaches fails; an expired token is refused, and its row goes unless the removal fails, which is not reported |
| SqlRefreshTokens.SqlAnswersAsMemory | api/console/sqlite_refresh_store.go:101-170 | Over every run with a nondecreasing clock and new tokens, with any database faults, each call that gets an answer gets the memory store's, and the table stays in step with its rows |
| RefreshRaces.RotatedOnce | api/console/postgres_refresh_store.go:71-144 | However the statements of concurrent Postgres transactions interleave, a token is rotated at most once |
| RefreshRaces.FamilyNeverForks | api/console/postgres_refresh_store.go:71-144 | At every moment at most one token of a family is still to be rotated |
| RefreshRaces.GrantSucceeds | api/console/postgres_refresh_store.go:75-144 | A rotation that is answered presented a live token not yet rotated, and leaves it spent beside one successor of the same family and tenant that expires one lifetime after the request |
| RefreshRaces.EveryTxWasBegun | api/console/postgres_refresh_store.go:75-125 | Over every run every open transaction began so: a rotation by selecting a live token not yet rotated, the answer to a replay by selecting a live one that was, a tenant revocation by its own DELETE |
| RefreshRaces.DeleteEmptiesIff | api/console/postgres_refresh_store.go:117-125 | A family or tenant DELETE leaves no row of its scope if and only if its snapshot saw every row that is there when it commits |
| RefreshRaces.ReuseKillsFamilyIff | api/console/postgres_refresh_store.go:117-125 | Over every run, after the Reuse answer the family is gone for good if and only if the DELETE's snapshot saw all of it |
| RefreshRaces.UndisturbedReuseKillsFamily | api/console/postgres_refresh_store.go:117-125 | So it is when no rotation inside the family commits between the snapshot and the DELETE's commit |
| RefreshRaces.SiblingEscapes | api/console/postgres_refresh_store.go:117-144 | A rotation of a sibling that commits while the DELETE waits for its lock leaves a successor that is usable after the Reuse answer |
| RefreshRaces.RevokedIsGone | api/console/postgres_refresh_store.go:148-158 | A token that is revoked is gone for good, whatever transactions are open |
| RefreshRaces.TenantRevocationTakes | api/console/postgres_refresh_store.go:160-169 | Once a tenant's revocation is answered, every token the tenant had when it began is gone for good |
| RefreshRaces.DeleteSpares | api/console/postgres_refresh_store.go:117-125 | A DELETE takes no row but those its snapshot saw in its family or tenant |
| Mfa.MemoryMFAStore.BeginEnrollment | api/console/mfa_store.go:198-209 | The pending record, or the refusal for an active tenant |
| Mfa.MemoryMFAStore.ActivateMFA | api/console/mfa_store.go:228-259 | Activation of the pending secret only |
| Mfa.MemoryMFAStore.MarkTOTPStep | api/console/mfa_store.go:262-274 | A step is accepted only above the last one |
| Mfa.MemoryMFAStore.ConsumeRecoveryCode | api/console/mfa_store.go:277-289 | A recovery hash is removed when it is used |
| Mfa.StepsIncrease | api/console/mfa_store.go:262-274 | Between an Activate and the next Disable accepted steps are strictly increasing and above the activating step |
| Mfa.SuccessesBounded | api/console/mfa_store.go:262-274 | Of the requests verified during clock steps a..b at most b - a + 3 are accepted (section 5.2 of RFC 6238) |
| Mfa.StepAcceptedIff | api/console/mfa_store.go:262-274 | After an activation a step is accepted if and only if it is above the activating step and every accepted one |
| Mfa.CodeAcceptedIff | api/console/mfa_store.go:277-289 | After an activation a recovery code is accepted if and only if that activation issued it and it has not been used since |
| Mfa.EnrollmentLife | api/console/mfa_store.go:198-309 | An enrollment becomes active only by an Activate with its pending secret, keeps that secret, and ends only by a Disable; other tenants are untouched |
| Mfa.EnrollmentAnswers | api/console/mfa_store.go:198-309 | A pending secret can be replaced, activated with the right secret or dropped, an active one only disabled |
| Mfa.RecoveryCodeSpent | api/console/mfa_store.go:277-289 | Each recovery code is accepted at most once per activation |
| SqlMfa.StepRefines | api/console/sqlite_mfa_store.go:90-333 | Each two-table operation answers as the memory store and keeps the tables in step, or fails and changes nothing |
| SqlMfa.FailsIff | api/console/sqlite_mfa_store.go:90-333 | A call fails if and only if its transaction does or a verified activation brings a hash twice; calls without their argument do not reach the database |
| SqlMfa.SqlRefinesMemory | api/console/sqlite_mfa_store.go:90-333 | The same over every run with distinct recovery hashes |
| SqlMfa.ActivateAgreesIff | api/console/sqlite_mfa_store.go:166-233 | Activation of a verified pending enrolment agrees with the memory store if and only if no hash is given twice |
| Totp.HotpCode | api/console/totp.go:75-97 | The truncation loop computes the six-digit code (section 5.3 of RFC 4226) |
| Totp.TotpVerify | api/console/totp.go:114-138 | Accepted if and only if the trimmed code is that of a step in the window; the earliest such step is reported |
| Totp.WindowIs | api/console/totp.go:114-138 | A step is accepted from one period before it begins until one period after it ends |
| Totp.WindowBefore1970 | api/console/totp.go:68-71 | Before 1970, where steps round towards zero, the window of a step is one period earlier |
| Totp.BigEndianMeans | api/console/totp.go:75-80 | The counter is sent as eight bytes that spell it, the most significant first |
| Totp.TruncateMeans | api/console/totp.go:83-91 | Dynamic truncation is the low 31 bits of the four digest bytes its last nibble points to |
| Totp.HotpMeans | api/console/totp.go:75-97 | A code is six digits whose value is the truncated number modulo a million; the counter goes into the digest modulo 2^64, as eight bytes that spell it |
| Totp.TrimMeans | api/console/totp.go:114-120 | Trimming takes white space off both ends and nothing else |
| ClickHouseSink.Sink.Emit | billing/clickhouse_sink.go:142-163 | What an emit appends, and when it arms the timer or asks for a flush |
| ClickHouseSink.Sink.BeginClose | billing/clickhouse_sink.go:167-187 | Only the first Close takes the buffer |
| ClickHouseSink.Sink.FlushBatch | billing/clickhouse_sink.go:245-306 | At most MaxRetries + 1 requests; the batch is recorded exactly once, as flushed if and only if some attempt succeeds after only retryable failures with the context alive |
| ClickHouseSink.EventsConserved | billing/clickhouse_sink.go:142-240 | In every interleaving each accepted event is buffered, in flight, flushed or failed, exactly once; an open sink with events has an armed timer, a fired one on its way, or a flush due |
| ClickHouseSink.FullBufferIsFlushed | billing/clickhouse_sink.go:142-163 | In every interleaving a buffer of at least the batch size on an open sink has a flush due |
| ClickHouseSink.ScheduleTakesBuffer | billing/clickhouse_sink.go:209-240 | A due flush takes the whole buffer, in order |
| ClickHouseSink.EmitAppends | billing/clickhouse_sink.go:142-163 | Emits keep their order in the buffer, and a closed sink takes none |
| ClickHouseSink.CountersAreOutcomes | billing/clickhouse_sink.go:191-240 | In every interleaving the two counters of Stats are the events of the batches whose flush succeeded, and of those whose flush failed |
| ClickHouseSink.ClosedHasNoTimer | billing/clickhouse_sink.go:167-187 | In every interleaving a closed sink has no timer armed |
| ClickHouseSink.ClosedMeansRecorded | billing/clickhouse_sink.go:167-187 | Once the first Close has returned every accepted event has been flushed or has failed, and the counters add up |
| ClickHouseSink.SecondCloseIsEarly | billing/clickhouse_sink.go:167-174 | A second Close can return while accepted events are still unrecorded |
| ClickHouseSink.LaterCloseCompleteIff | billing/clickhouse_sink.go:167-187 | In every interleaving, when a later Close returns (the sink closed, no background flush running), every accepted event is recorded if and only if the first Close has returned or had taken an empty buffer |
| SqliteSink.Sink.Persist | billing/sqlite_sink.go:190-218 | All of a batch is appended to the log and counted, or nothing |
| SqliteSink.CountersAreTheLog | billing/sqlite_sink.go:190-218 | After any sequence of committed and rolled-back batches the counters are the log aggregated, for every selection of keys |
| SqliteSink.LogIsCommitted | billing/sqlite_sink.go:190-218 | After any sequence of batches the log is the committed ones in order, every event once, and nothing of the others |
| SqliteSink.Sink.Total | billing/sqlite_sink.go:224-238 | The counter read is the sum of the key's logged events |
| SqliteSink.Sink.TenantTotal | billing/sqlite_sink.go:243-253 | The tenant's total is the sum of its logged events of the dimension |
| SqliteSink.TotalIsUnboundedUsage | billing/sqlite_sink.go:243-291 | A tenant's total equals its usage over any window that covers the log |
| SqliteSink.UsageIsAdditive | billing/sqlite_sink.go:264-291 | Usage over adjacent half-open windows adds up, dimension by dimension |
| SqliteSink.UsageNext | billing/sqlite_sink.go:264-291 | One event more adds its delta to its tenant's usage of its own dimension if it was observed from the start on and before the end, and nothing otherwise |
| SqliteSink.UsageListsIff | billing/sqlite_sink.go:264-291 | A dimension is listed if and only if one of the tenant's events in the window has it |
| ObjectLock.Handler.PutObjectRetention | api/s3compat/object_lock_handler.go:217-275 | Accepted exactly as the guard says, and what is then stored |
| ObjectLock.Handler.Delete | api/s3compat/handler.go:2715-2744 | A permanent delete removes the version, and nothing else, if and only if it is not on legal hold and its retention is absent, has ended, or is GOVERNANCE and bypassed; a missing version is a success |
| ObjectLock.Handler.Put | api/s3compat/object_lock_handler.go:469-536 | A PUT or COPY stamps the bucket's default on its version, without a hold, and replaces one with the same ID; on an unversioned bucket it is refused if and only if the current version is on hold or has a retention in force that is not a bypassed GOVERNANCE, on a versioned one the guard does not look |
| ObjectLock.StepKeepsIff | api/s3compat/object_lock_handler.go:448-552 | A lock (COMPLIANCE, or a retention of either mode, until T) survives a single event if and only if the event is harmless, a condition on the request, the bucket's rule and the copy the request loaded, for re-puts, delete markers, amendments, holds and deletes |
| ObjectLock.LockHoldsIff | api/s3compat/object_lock_handler.go:448-552 | Over every run, however its requests overlap, a lock is there at every moment if and only if every event in between is harmless to it |
| ObjectLock.StepSparesHoldIff | api/s3compat/object_lock_handler.go:309-343 | A legal hold survives a single event if and only if the event spares it: a condition on the request and on the copy it loaded |
| ObjectLock.HoldHoldsIff | api/s3compat/object_lock_handler.go:448-552 | Over every run, however its requests overlap, a version is on hold at every moment if and only if every event in between spares it |
| ObjectLock.LoadedHoldIsKept | api/s3compat/object_lock_handler.go:448-466 | A request that loaded a held version never removes it, with or without bypass, at any time |
| ObjectLock.DefaultStamps | api/s3compat/object_lock_handler.go:519-536 | A bucket's default locks a new version in its mode for exactly its span, and an empty rule not at all |
| ObjectLock.DefaultProtects | api/s3compat/object_lock_handler.go:519-536 | So a version published under a COMPLIANCE default is protected for the span, under the hypotheses of ComplianceHolds |
| ObjectLock.LoadedLockIsKept | api/s3compat/object_lock_handler.go:541-552 | Before T, a request that loaded the lock cannot remove it, a GOVERNANCE bypass excepted |
| ObjectLock.ComplianceHolds | api/s3compat/object_lock_handler.go:448-552 | Over every run in time, a version under COMPLIANCE until T is there, in COMPLIANCE, with a date no earlier than T, at every moment before T, whatever amendments, bypasses, holds, PUTs, COPYs and DELETEs occur; hypotheses: each request that writes the version had loaded it under COMPLIANCE until T, and a PUT or COPY that replaces it stamps as much |
| ObjectLock.SerialLockHolds | api/s3compat/object_lock_handler.go:448-552 | The same for runs whose writes find the version as they loaded it and whose PUTs, COPYs and delete markers bring new version IDs: COMPLIANCE holds, and a retention of either mode holds unless bypassed |
| ObjectLock.RecopyUnlocks | api/s3compat/copy.go:797-823 | Without any overlap: repeating a dedup COPY replaces a COMPLIANCE version by one with the bucket's default under the same version ID, and the version can then be deleted early |
| ObjectLock.GovernanceNeedsBypass | api/s3compat/object_lock_handler.go:217-275 | Under the same two hypotheses a retention of either mode weakens or disappears early only through a bypass request for that version |
| ObjectLock.AcceptedAmendmentClimbs | api/s3compat/object_lock_handler.go:217-275 | A proper retention is accepted if and only if the one in place is not in force, the new one is at least as strong, or GOVERNANCE is bypassed; what is written differs from the version in its retention only |
| ObjectLock.ImproperAmendmentRefused | api/s3compat/object_lock_handler.go:217-275 | A delete marker, and a request without a mode or a date, are refused |
| ObjectLock.AmendmentsClimb | api/s3compat/object_lock_handler.go:541-552 | A chain of accepted amendments of active retentions ends at least as strong as it began |
| ObjectLock.OverlappingWriteUndoesExtension | api/s3compat/object_lock_handler.go:309-343 | A hold request, or a shorter amendment, that overlaps an accepted COMPLIANCE extension writes an earlier date back, and the version can then be deleted early |
| Forecasting.LinearGrowth | billing/forecasting.go:254-284 | The cases of no sample, one instant and a fitted line |
| Forecasting.DenominatorSign | billing/forecasting.go:272-275 | For every sample count the denominator is non-negative, and zero if and only if all samples were taken at one instant |
| Forecasting.LeastSquares | billing/forecasting.go:276-277 | Otherwise the slope and intercept minimise the sum of squared residuals over all lines |
| Forecasting.PredictedIs | billing/forecasting.go:278-284 | The prediction is the largest whole number on or below the fitted line, or zero where the line is negative |
| LifecycleXml.ConfigRoundTrip | api/s3compat/lifecycle_handler.go:115-253 | Parsing the printed form of a configuration succeeds if and only if every date is in a four-digit year, and gives the configuration back if and only if every date is a whole second as well |
| LifecycleXml.YearTenThousandIsLost | api/s3compat/lifecycle_handler.go:98-108 | A date stored from 9999-12-31T23:59:59-01:00 prints to a document that no longer parses |
| LifecycleXml.FilterRoundTrip | api/s3compat/lifecycle_handler.go:168-294 | Any filter survives printing and parsing with its tags met in any order; the And and sibling rules never reject a printed one |
| LifecycleXml.PrintedShape | api/s3compat/lifecycle_handler.go:255-294 | One predicate is printed on its own, two or more only inside an And, with the tags in the given order, and an absent one not at all |
| LifecycleXml.FilterRejectedIff | api/s3compat/lifecycle_handler.go:168-217 | A filter is refused if and only if something stands beside its And, or two of its predicates stand without one |
| LifecycleXml.RuleRejectedIff | api/s3compat/lifecycle_handler.go:115-166 | A rule is refused if and only if it has both a filter and a prefix of its own, a refused filter, or a date that does not parse; a prefix of its own becomes its filter |
| LifecycleXml.AscendingIsUnique | api/s3compat/lifecycle_handler.go:297-304 | The sorted tag order depends only on the set of keys |
| LifecycleXml.SortedKeys | api/s3compat/lifecycle_handler.go:297-304 | However the map yields its keys, the result is that one order |
| LifecycleXml.PrintFilter | api/s3compat/lifecycle_handler.go:255-294 | The predicate counter and tag loops compute the printed filter |
| LifecycleXml.ParseFilter | api/s3compat/lifecycle_handler.go:168-217 | The sibling counter and tag loop compute the parsed filter or the rejection |
| LifecycleXml.DateRoundTrip | api/s3compat/lifecycle_handler.go:98-108 | A printed date parses if and only if it is in a four-digit year, survives if and only if it is a whole second as well, and is empty only for the zero time |

## Left out

- DedupSafety.NoDanglingManifest: requests are values with a program counter, not objects; which backend a piece goes to, the multipart dedup path and the orphan sweep of the content index (`metadata/content_index/orphan_gc.go`) are not steps.
- DedupSafety.RunKeepsInv: the three hypotheses are assumed because the code does not enforce them; each is shown to be needed.
- DedupReclaim.AlwaysAccountedIff: over runs whose calls succeed; a call that fails after its effect, or a best-effort DeletePiece that fails, leaves a piece to the orphan sweep, which is not modelled.
- DedupReclaim.NothingLeftBehind: requests that overlap on a version or a row are excluded, because the code does leave pieces behind then.
- CopyObject.CopyPreservesBytes: for a source whose GET fails see CopyAgreesIff; tags, object metadata, conditional headers and the choice of the destination backend are left out.
- ObjectRuns.CopyReadsAsSource: DELETE is not among the interleaved requests; piece lifetimes under DELETE are the subject of the dedup model.
- FetchPiece.FetchIsSlice: a stream that breaks after the response has started is not modelled, nor are multi-range responses and the streaming decrypt path.
- FetchPiece.CacheHoldsMatches: cache eviction and the asynchronous promotion worker are not modelled.
- ObjectLock.ComplianceHolds: other writers of the manifest (tagging, migration) are not requests of the model, and the overwrite guard of a PUT is a method of its own: the runs allow every publication, guarded or not.
- ClickHouseSink.EventsConserved: counters are unbounded, where the source's wrap at 2^64.
- SqliteSink.Sink.Persist: the SQLite sink's buffer, timer, Close and failure counter are not modelled; they differ from the ClickHouse sink's, and nothing is claimed about them.
- FleetOrchestrator.RunOnceIsRound: a RunOnce without interleaved acquisitions; the job runner and the heartbeat loop are not modelled.
- Forecasting.LeastSquares: over the reals; rounding, NaN, the fill-time clamp and the monthly cost projection are left out.
- LifecycleXml.ConfigRoundTrip: between the configuration and the document types; the XML text itself and the calendar behind a printed date are parameters; the printed date is assumed to parse back for years 0 to 9999 and not beyond.
- ErasureCoding.ParityIsLawful: covers one parity shard; that Reed-Solomon meets the law for more is assumed.
- ErasureRead.ReadIsExact: shard placement, rollback of a failed PUT and the registry lookup are left out.
- SqlRefreshTokens.SqlAnswersAsMemory: a transaction is atomic here, as in SQLite; RefreshRaces takes the Postgres store statement by statement.
- RefreshRaces.ReuseKillsFamilyIff: the isolation level is READ COMMITTED, the default; deadlock detection is an abort, and serialization failures of stricter levels are left out.
- NamedReads.NameHoldsIff: DELETE and plain PUT are not among the interleaved requests; a delete marker is a current version without a manifest in the model, and the sweep's visit of it, which skips it, is not counted.
- JobLeases.RecordIs: for clock readings after the zero time, which the source takes for "not started".
- PgJobStore.PgSimulatesMemory: carries the memory store's theorems over to the Postgres store for named nodes and fresh jobs only.
- HTTP plumbing, authentication, auditing, notifications, quotas, the console handlers and the in-memory configuration stores are left out because they would only add easy members.
