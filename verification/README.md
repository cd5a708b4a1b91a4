# A verified model of the roci registry

roci is an OCI image registry. This project models its storage core in Dafny and proves
what the registry relies on: online garbage collection next to live pushes, the derived
`index.json` written behind the metadata, the metadata log and its compaction, quota
admission under per-digest locks, upload staging, restart stamps, access-policy globs,
paging, and the validators and limiters in front of the store.

`dafny verify dfyconfig.toml` checks everything.

## How it is built

- **Protocols** are state machines whose steps are single lock acquisitions, store calls
  or clock readings: `GcProtocol` (pushes, commits, size checks, sweeps, client deletes),
  `WriteBehind` (mutators, readers, the flusher), `Admission` (pushes and mounts over the
  lock map), `GroupCommit` (appends and shared syncs of the metadata log), `Restart`
  (starts, shutdowns, crashes and power failures). A run is any list
  of actions, so interleavings, failures and crashes are all covered. The lemmas named
  `Solo...` in `GcSolo`, `Admission`, `WriteBehind` and `GroupCommit`, and
  `WriteBehind.FlushConverges`, show that the steps of one undisturbed task add up to the
  call they stand for.
- **Objects** the source updates in place are classes (`Registry.Storage`,
  `Quota.QuotaTracker`, `Upload.StagingFile`, `Upload.UploadSession`,
  `Cache.SmallBlobCache`, `RateLimit.TokenBucket`, `Trackers`), and loops are methods with
  invariants, each proved against an independent definition.
- **Values** (manifests, index files, log records, names) are datatypes and functions.
- I/O, clocks, the disk and the network are parameters or nondeterministic outcomes.
  Hashes, tags and checksums are arbitrary functions. Digests are canonical lower-case
  strings. Where the source works on bytes of text, a character stands for one byte.

## What turned out not to hold

Each of these has the exact condition under which the property does hold, and an input
that breaks it.

- Rebuilding `index.json` walks the referrer map in hash order. Over all walks, rebuilding
  is idempotent if and only if no digest is recorded readably under two subjects and no
  digest the metadata does not know has only unreadable records
  (`Layout.RebuildIsIdempotent`). Under two subjects the file flips with the walk
  (`Layout.FlippedWalkDiffers`, `IndexFile.TwoSubjectsFlip`). An unreadable record is
  listed once more by every rebuild (`IndexFile.UnparsedReferrerNeverSettles`); the
  registry's own writers record objects only, so that one is an input of the rebuild, not
  a state its calls reach.
- File and metadata list the same tags if and only if no tagged digest is listed in the
  old file with annotations that are not an object. They give the same answers, media type
  included, if and only if moreover every tag was recorded with the media type its manifest
  has now (`IndexFile.SlowPathAgrees`, `IndexFile.OddAnnotationsLoseTag`).
- A manifest delete forgets blobs if and only if it takes effect on the metadata and,
  before it, some stored blob off the candidate list was referenced by that manifest alone
  and is not re-listed (`Registry.RelistedDelete`, `Registry.Storage.DeleteManifest`).
  Nothing is re-listed when the record took effect but its sync failed, or when the
  manifest reads but does not parse, on both backends, or when it cannot be read, on the
  object store; each forgets a layer in every registry (`Registry.UnsyncedDeleteForgets`,
  `Registry.UnparsedDeleteForgets`, `Registry.UnreadDeleteForgets`).
- A failed manifest push leaves the metadata as it was if and only if its record did not
  take effect before its sync failed (`Registry.Storage.PutManifest`).
- A touch buys a full grace period only counted from the oldest mark already under way,
  because marks read the clock before they lock; for every mark, touch and delay that
  bound is reached (`GcGrace.GracePeriod`, `GcGrace.PendingMarkCutsGrace`).
- Quota is exact once nothing is in flight if and only if no charged blob had been stored
  by somebody else meanwhile. Locked pushes never do that; the filesystem manifest commit
  takes no lock and can (`Admission.QuotaIsExact`, `Admission.UnlockedCommitsChargeTwice`).
- Log compaction is documented to reproduce the state
  (crates/roci-storage/src/metadata/log.rs:652-656). It does if and only if every tagged
  manifest's media type is the one recorded with its last tag
  (`Compaction.CompactionRestores`, `Compaction.RetaggingLosesMediaType`).
- A log cut off by a crash is not truncated when it is reopened, unless the cut fell into
  the header of a keyed log: that one is moved aside. What is appended to it is read back
  if and only if the bytes behind the complete records, the torn piece first, begin with
  the appended records all the same and leave nothing readable
  (`Wal.AppendedSurviveIff`, `Reopen.ReopenedSurviveIff`). All of it is lost if and only if
  the torn record is rejected: too little follows it, or its checksum or tag disagree with
  the spliced payload (`Wal.TornRejectedIff`, `Wal.LongTornRecordSwallows`).
- An acknowledged metadata operation is read back after every power failure if no append
  before it stopped half way, with everything before it (`GroupCommit.AcknowledgedReadBack`,
  `GroupCommit.AcknowledgedSurvive`). After one that did, the next acknowledged operation
  is read back exactly under the condition just given (`GroupCommit.HalfAppendLosesNext`).
- A restart stamp is applied only by the session right after the one that wrote it,
  wherever the machine crashes and starts again, if and only if the run never has a stamp
  on disk that its last session did not write while a start might find the metadata log
  where the stamp says: now, or after a power failure (`Restart.AppliedOnlyNext`). Exactly
  which sessions leave such a stamp is `Restart.SessionLeavesThreatIff`; for a log that is
  appended to, synced and compacted, the stamp must lie at or after the synced part
  (`Restart.SomeCrashThreatensIff`). Four runs from the first start on end that way: a
  removal that was not synced, a stamp that could not be read, unsynced metadata that a
  power failure took back, and, without any crash, a session with fast restart switched off
  (`Restart.UnsyncedRemovalGoesStale`, `Restart.UnreadStampGoesStale`,
  `Restart.LostTailGoesStale`, `Restart.DisabledSessionGoesStale`).
- The count of upload sessions is what was opened minus what was closed if and only if
  every end closes a session that is open (`Quota.SessionsBalance`).
- A stamp survives wrapping if and only if its body is below 4 GiB (`Stamp.WrapSurvivesIff`).

## Model

| member | source | states |
|---|---|---|
| `GcProtocol.StepKeepsInv` | crates/roci-storage-s3/src/storage_impl.rs:330-392 | Every step of every push, commit, size check, sweep and client delete keeps: the fence counts its holders, and each committed manifest's own and required blobs are stored or were withdrawn by a client. |
| `GcProtocol.ExecKeepsInv` | crates/roci-storage-s3/src/storage_impl.rs:1284-1359 | The invariant holds after every run. |
| `GcProtocol.CommitPointGood` | crates/roci-storage-s3/src/storage_impl.rs:357-391 | The commit point: what the re-check saw is still held, because re-check and commit share one pin. |
| `GcProtocol.CollectGood` | crates/roci-storage-s3/src/storage_impl.rs:1299-1349 | Deleting a candidate that passed every sweep test takes nothing from any committed manifest. |
| `GcSafety.LeavesOnlyBy` | crates/roci-storage-s3/src/storage_impl.rs:316-328 | A blob leaves the store only by a client's delete of it or by a sweep standing right before deleting it. |
| `GcSafety.CommittedStayStored` | crates/roci-storage-s3/src/storage_impl.rs:330-392 | In every run, every committed manifest has its own blob and every blob its config and layers name stored, save those a client deleted itself. |
| `GcSafety.CollectionIsSafe` | crates/roci-storage-s3/src/storage_impl.rs:1284-1359 | In every run without client deletes nothing that the config or a layer of a committed manifest names is ever missing. |
| `GcSafety.ShieldedSurvives` | crates/roci-storage/src/fs_storage/gc.rs:156-235 | A root, a manifest, a referenced blob, or any blob of an unsafe repository survives every run without client deletes. |
| `GcSafety.SectionsAreShort` | crates/roci-storage-s3/src/storage_impl.rs:1284-1359 | In every run a sweep handles at most 256 candidates between taking the fence and giving it back. |
| `GcSolo.SoloCommit` | crates/roci-storage-s3/src/storage_impl.rs:330-392 | The commit steps add up to the call: undisturbed, a commit stores its blob, releases the fence, and commits iff everything its config and layers name is stored; then the manifest is known, everything it mentions has an edge to it, and neither that nor itself is a candidate. Otherwise the metadata is untouched. |
| `GcSolo.SoloSweep` | crates/roci-storage-s3/src/storage_impl.rs:1284-1359 | Undisturbed, a sweep terminates with the fence open having removed exactly the stored candidates whose delay is over that are no root, in no unsafe repository, without back references and no manifest, however many batches it takes. |
| `GcSolo.SoloPush` | crates/roci-storage-s3/src/storage_impl.rs:258-314 | Undisturbed, a push stores its blob and lists it as of now iff nothing refers to it and it is no manifest; nothing else changes. |
| `GcSolo.SoloCheck` | crates/roci-storage-s3/src/storage_impl.rs:44-54 | Undisturbed, an existence check stamps its blob with the present time if it is a candidate, and changes nothing else. |
| `GcSolo.SoloRemove` | crates/roci-storage-s3/src/storage_impl.rs:316-328 | Undisturbed, a client delete removes exactly that blob and its candidate entry; deleting a manifest also forgets it in the metadata and lists what it mentioned and nothing else refers to. |
| `GcGrace.StepStaysFresh` | crates/roci-storage/src/gc.rs:67-107 | Freshness of a blob's stamp survives every step of every task. |
| `GcGrace.GracePeriod` | crates/roci-storage-s3/src/storage_impl.rs:44-54 | After a touch no sweep deletes the blob until the delay has passed since the touch or the oldest mark then under way, whenever the sweep read its clock. |
| `GcGrace.PendingMarkCutsGrace` | crates/roci-storage/src/gc.rs:67-78 | The bound is tight: for every mark under way, every later touch and every delay, a reachable run has a sweep about to delete the touched blob at exactly the bound, before the touch's own delay is over when the mark is older. |
| `Manifests.RequiredBlobs` | crates/roci-core/src/manifests.rs:112-129 | Refused iff the layers are no array or some config or layer descriptor has no well-formed digest; otherwise the digests of the config and of every layer, one each, in order. |
| `Manifests.RequiredIsNeeded` | crates/roci-core/src/manifests.rs:112-129 | A digest is required iff the config or an element of the layers array names it. |
| `Manifests.ReferencesAreMentioned` | crates/roci-storage/src/layout.rs:50-65 | A digest is a reference iff the config, a layer, an index child or the subject names it, malformed descriptors left aside. |
| `Manifests.RequiredAreReferences` | crates/roci-storage/src/layout.rs:50-65 | The required digests of an accepted manifest open its list of references, so each gets a back reference. |
| `Metadata.TagsStayKnown` | crates/roci-storage/src/metadata/log.rs:244-311 | No operation leaves a tag whose manifest is unknown. |
| `Metadata.BackrefsAfter` | crates/roci-storage/src/metadata/log.rs:137-145 | The edges of every blob after every operation, in terms of the edges before. |
| `Metadata.ManifestsAfter` | crates/roci-storage/src/metadata/log.rs:244-311 | The known manifests after every operation, in terms of those before. |
| `Metadata.MediaTypesAfter` | crates/roci-storage/src/metadata/log.rs:244-311 | The media type of every manifest after every operation, in terms of those before. |
| `Metadata.TagsAfter` | crates/roci-storage/src/metadata/log.rs:244-311 | What every tag names after every operation: a push with that tag moves it to the pushed manifest, a delete of the manifest it names drops it, nothing else touches it. |
| `Metadata.ReferrersAfter` | crates/roci-storage/src/metadata/log.rs:244-311 | Which descriptor is recorded for every referrer under every subject after every operation, in terms of those before. |
| `Metadata.ChecksumsAfter` | crates/roci-storage/src/metadata/log.rs:244-311 | The checksum of every blob after every operation, in terms of those before. |
| `Rebuild.RebuildBackrefs` | crates/roci-storage/src/gc.rs:196-270 | Terminates for every finite store, cycles included; visits exactly what the roots reach; adds exactly the edges of readable visited manifests; makes unknown ones immune; marks the repository unsafe iff some visited manifest is missing or unreadable. |
| `Rebuild.RebuildRepo` | crates/roci-storage/src/fs_storage/gc.rs:90-131 | After the rebuild every digest an entry of index.json lists, every manifest the metadata knew, every child of an index among these in turn, and whatever they mention is a known manifest, immune or referenced, or the repository is skipped; it is skipped iff index.json is corrupt or a manifest on the way cannot be read. Edges only grow, each new one a reference of a readable manifest; only unknown manifests on the way become immune; other repositories are unchanged. |
| `Rebuild.LiveNeverCollected` | crates/roci-storage/src/fs_storage/gc.rs:51-88 | From a rebuilt state no run of sweeps, pushes and commits removes a stored blob reachable from metadata or index. |
| `Rebuild.ListedNeverCollected` | crates/roci-storage/src/fs_storage/gc.rs:51-131 | From a rebuilt state no run of sweeps, pushes and commits removes a stored blob at the end of a chain of index children that begins at an entry of index.json or at a manifest of the metadata, nor anything the last manifest of the chain mentions. |
| `Startup.ConsistencyCheck` | crates/roci-storage/src/fs_storage/gc.rs:51-88 | The startup check as a whole: for every repository, whatever its index.json lists, its metadata knew, and these lead to is protected or the repository is skipped; all edges are true; the invariant every later call keeps holds iff the listing missed no new orphan, so always when it was complete. |
| `Registry.CommitKeepsOrphanFree` | crates/roci-storage-s3/src/storage_impl.rs:370-391 | A commit may clear everything it links without forgetting an orphan. |
| `Registry.OrphanedIff` | crates/roci-storage-s3/src/storage_impl.rs:420-448 | A manifest delete orphans exactly the blobs that, before it, were referenced by that manifest alone and neither root nor manifest. |
| `Registry.OrphansAreReferences` | crates/roci-storage-s3/src/storage_impl.rs:420-448 | What a manifest delete can orphan is among that manifest's own references. |
| `Registry.DeleteKeepsOrphanFree` | crates/roci-storage-s3/src/storage_impl.rs:420-448 | Re-listing the references left without an edge is enough after a delete. |
| `Registry.RelistedDelete` | crates/roci-storage-s3/src/storage_impl.rs:420-448 | Whatever is re-listed, the rule survives a delete iff every stored blob that, before it, hung on the manifest alone is a candidate already or re-listed. |
| `Registry.DeleteForgets` | crates/roci-storage-s3/src/storage_impl.rs:420-448 | In every registry a manifest committed with a layer nothing else refers to, then deleted without re-listing that layer, leaves the layer forgotten. |
| `Registry.UnsyncedDeleteForgets` | crates/roci-storage/src/metadata/log.rs:506-520 | On either backend a delete whose record took effect and whose sync failed re-lists nothing. |
| `Registry.UnparsedDeleteForgets` | crates/roci-storage/src/fs_storage/storage_impl.rs:543-545 | On either backend a manifest that does not parse is deleted with nothing re-listed. |
| `Registry.UnreadDeleteForgets` | crates/roci-storage-s3/src/storage_impl.rs:424-429 | On the object store a manifest that cannot be read is deleted with nothing re-listed; the filesystem backend stops. |
| `Registry.Storage.PutBlob` | crates/roci-storage-s3/src/storage_impl.rs:258-314 | Succeeds iff the write does; then the blob is stored and stamped as a candidate iff no manifest refers to it and it is none. Every stored orphan stays a candidate. |
| `Registry.Storage.NoteBlobEntered` | crates/roci-storage/src/lifecycle.rs:8-34 | A blob that landed is listed iff it has no edge and is no manifest. |
| `Registry.Storage.Recheck` | crates/roci-storage-s3/src/storage_impl.rs:362-368 | Succeeds iff all required blobs are stored and can be looked up, otherwise names a missing one or reports the failed look-up; on success every required candidate carries the present time, and no other stamp changes. |
| `Registry.Storage.PutManifest` | crates/roci-storage-s3/src/storage_impl.rs:330-392 | Refused iff a required descriptor is malformed; succeeds iff the blob is written, everything config and layers name is found and the record goes through. Success leaves the media type, the tag naming the manifest, its descriptor under its subject and an edge from everything it mentions, none of it a candidate. Every outcome, also a record applied with a failing sync, keeps every stored orphan a candidate. |
| `Registry.PushRecords` | crates/roci-storage-s3/src/storage_impl.rs:370-391 | After the record of a push, over any metadata: the manifest has its media type, the tag names it, and its descriptor is under its subject. |
| `Registry.DeleteErases` | crates/roci-storage-s3/src/storage_impl.rs:420-448 | After the record of a delete, over any metadata: the manifest is unknown, no tag names it, it is no referrer of anything and has no edge left. |
| `Registry.Storage.DeleteBlob` | crates/roci-storage-s3/src/storage_impl.rs:316-328 | Removes the blob and its candidate entry, reports it missing, or fails with the backend leaving everything; no orphan is forgotten. |
| `Registry.Storage.DeleteManifest` | crates/roci-storage/src/fs_storage/storage_impl.rs:528-564 | Per backend, reading, removal and record outcome, the new state, and, in terms of the state before, exactly when the orphan rule survives; it always does when the manifest is read intact and its record goes through. Success erases the manifest from tags, media types, referrers and edges, and lists exactly what it mentioned that nothing refers to any more. |
| `Registry.Storage.Sweep` | crates/roci-storage/src/fs_storage/gc.rs:156-235 | Removes exactly the stored candidates whose delay is over that are no root, in no unsafe repository, without back references, no manifest, and can be deleted; forgets exactly those and the due ones that turned out to be wanted, immune, gone or no digest; keeps the rule. |
| `Registry.Storage.SeedCandidates` | crates/roci-storage/src/fs_storage/gc.rs:51-88 | Lists every orphan the listing reached; the rule then holds iff none was missed. |
| `Glob.SplitJoin` | crates/roci-core/src/auth/policy.rs:18-42 | Splitting at '/' and joining gives the text back, and no component contains '/'. |
| `Glob.Tokenize` | crates/roci-core/src/auth/policy.rs:18-42 | The loop yields the tokens of the pattern's components. |
| `Glob.GlobMatch` | crates/roci-core/src/auth/policy.rs:44-67 | The bottom-up table decides token matching. |
| `Glob.TokensMatchComponents` | crates/roci-core/src/auth/policy.rs:18-67 | For every pattern and name: tokens match iff components do, '*' within one component, inner '**' any number, final '**' at least one. |
| `Glob.MatchPattern` | crates/roci-core/src/auth/policy.rs:18-67 | Tokenizing and running the table decides component matching. |
| `Glob.LiteralMatchesItself` | crates/roci-core/src/auth/policy.rs:18-67 | A pattern without wildcards matches itself and nothing else. |
| `Glob.StarInComponent` | crates/roci-core/src/auth/policy.rs:18-67 | A component with one '*' matches iff the text begins with what precedes the star and, behind that, ends with what follows it. |
| `Glob.SubtreeMatches` | crates/roci-core/src/auth/policy.rs:18-67 | Literal components followed by "**" match exactly the names properly below them. |
| `Glob.AnywhereMatches` | crates/roci-core/src/auth/policy.rs:18-67 | "**" in front of literal components matches exactly the names that end in them. |
| `Policy.WinningRule` | crates/roci-core/src/auth/policy.rs:129-144 | The matching rule with the most literal characters, among those with the fewest wildcards, among those the first declared, counted as positions of the tokenized pattern; none iff none matches. |
| `Policy.MoreSpecificIff` | crates/roci-core/src/auth/policy.rs:129-144 | One rule beats another iff its pattern has more literal positions, or as many and fewer wildcard positions. |
| `Policy.OwnNameIsPreferred` | crates/roci-core/src/auth/policy.rs:129-144 | When a rule is written for exactly the repository's name, no rule with a wildcard decides for it. |
| `Policy.CatchAllIsLast` | crates/roci-core/src/auth/policy.rs:129-144 | "**" decides only when no matching rule has a literal character. |
| `Policy.CompileGroups` | crates/roci-core/src/auth/policy.rs:87-96 | A user is in a group after compilation iff some configured group of that name lists the user. |
| `Policy.DecidesOnce` | crates/roci-core/src/auth/policy.rs:129-144 | At most one rule decides for a repository. |
| `Policy.Grants` | crates/roci-core/src/auth/policy.rs:146-175 | An action is returned iff an administrator asks, or the deciding rule grants it to all, to signed-in users, or in a policy naming the user, a configured group of the user or a directory group. |
| `Layout.CompletedTwice` | crates/roci-storage/src/layout.rs:299-357 | With one readable record per referrer, completing a completed descriptor changes nothing, whatever the two walks. |
| `Layout.BaseAgain` | crates/roci-storage/src/layout.rs:262-357 | Over a rebuilt file every manifest gets the same descriptor again. |
| `Layout.RebuildTwice` | crates/roci-storage/src/layout.rs:262-403 | With one readable record per referrer, a second rebuild, in any orders and walks, lists the same descriptors plus one more copy of each unlabelled referrer. |
| `Layout.FlippedWalkDiffers` | crates/roci-storage/src/layout.rs:315-357 | Two walks that end on different subjects of one referrer leave different files. |
| `Layout.RebuildIsIdempotent` | crates/roci-storage/src/layout.rs:145-153 | Over all walks of both rebuilds, the second has the same manifest set iff no referrer is recorded readably under two subjects and none is unlabelled. |
| `IndexFile.ReadExisting` | crates/roci-storage/src/layout.rs:272-297 | Splits the old file into known descriptors, first listed wins, and entries of other tools. |
| `IndexFile.AddFacts` | crates/roci-storage/src/layout.rs:299-313 | Every known manifest is described, with the metadata's facts over the file's. |
| `IndexFile.AddRecords` | crates/roci-storage/src/layout.rs:315-357 | One subject's records: every referrer of it is described with the record merged in, the others are untouched. `Descriptors.WalkedFields`, `Descriptors.WalkedSubject` and `Descriptors.WalkedNotes` say what merging leaves in each field. |
| `IndexFile.AddReferrers` | crates/roci-storage/src/layout.rs:315-357 | The nested loops merge every record in walk order, with its subject, whatever the number of subjects; field by field in the same three. |
| `IndexFile.IndexFromMeta` | crates/roci-storage/src/layout.rs:262-403 | For every walk order, the file returned has an entry for every tag and one for every other digest the metadata knows or records, each with exactly the fields and annotations that metadata, old entry and referrer records give it, the entries of other tools, and nothing else; top-level fields of the old file stay. |
| `Descriptors.WalkedFields` | crates/roci-storage/src/layout.rs:315-357 | After any walk: media type and size are the descriptor's own, or else those of the first record in the walk that has them; the digest is the descriptor's own; every other plain field is that of the last record that has it, or else the descriptor's own. |
| `Descriptors.WalkedSubject` | crates/roci-storage/src/layout.rs:315-357 | After any walk the subject is the last subject in the walk that records the digest readably, or else the descriptor's own. |
| `Descriptors.WalkedNotes` | crates/roci-storage/src/layout.rs:315-357 | After any walk every annotation is the descriptor's own, or else that of the first record in the walk that has it, and never a tag; annotations that are no object stay as they are. |
| `Descriptors.BaseIsExact` | crates/roci-storage/src/layout.rs:262-357 | Every rebuilt descriptor, field by field: the digest; the metadata's media type, or the first record's; the size of the old entry, of the store or of the first record; the last subject; other fields from the last record that has them, else the old entry; annotations of the old entry, then of the records in order. |
| `Descriptors.RebuiltIndexHolds` | crates/roci-storage/src/layout.rs:262-403 | The rebuilt file as a whole, stated on its JSON: exactly these entries, each exact, and the top-level fields. |
| `IndexFile.FileResolvesTags` | crates/roci-storage/src/fs_storage/index.rs:328-347 | Over any old file, a tag resolves in the rebuilt one iff the metadata has it and its digest is listable, and then to the metadata's digest and media type. |
| `IndexFile.SameSetResolves` | crates/roci-storage/src/layout.rs:145-153 | A file with the descriptors of a rebuilt one, in any order, resolves exactly the metadata's tags save unlistable ones. |
| `IndexFile.SlowPathAgrees` | crates/roci-storage/src/layout.rs:359-377 | File and metadata answer alike for every tag iff no tagged digest is unlistable and every tag has its digest's media type; they agree on the tags iff the first half holds. |
| `IndexFile.ForeignSurvives` | crates/roci-storage/src/layout.rs:275-403 | Entries of other tools and unknown top-level fields survive every rebuild. |
| `IndexFile.ImportForeignTags` | crates/roci-storage/src/layout.rs:236-260 | A tag the metadata has is untouched; any other ends up with the digest and media type of the first entry that offers it with a well-formed digest, an image manifest if the entry has no media type, or stays unknown if none does. |
| `IndexFile.ImportKeeps` | crates/roci-storage/src/layout.rs:236-260 | Importing never moves or drops a tag. |
| `IndexFile.ImportTakes` | crates/roci-storage/src/layout.rs:236-260 | Every well-formed tagged entry ends up tagged in the metadata. |
| `IndexFile.ImportIsExact` | crates/roci-storage/src/layout.rs:236-260 | The same for every tag, over any metadata and any list of entries. |
| `IndexFile.ReconcileReachesFixpoint` | crates/roci-storage/src/fs_storage/index.rs:115-152 | A second reconciliation imports nothing, and finds the file up to date over all walks iff the referrer records settle. |
| `IndexFile.TwoSubjectsFlip` | crates/roci-storage/src/layout.rs:315-357 | A digest under two subjects: rebuilt over them in one order and then the other, the file differs. |
| `IndexFile.UnparsedReferrerNeverSettles` | crates/roci-storage/src/layout.rs:315-357 | A referrer record no rebuild ever settles on. |
| `IndexFile.OddAnnotationsLoseTag` | crates/roci-storage/src/layout.rs:359-377 | A file whose tag is lost on the next rebuild. |
| `WriteBehind.StepKeepsInv` | crates/roci-storage/src/fs_storage/index.rs:56-92 | Every mutator, reader and flusher step keeps: a clean repository's file misses nothing acknowledged. |
| `WriteBehind.ExecKeepsInv` | crates/roci-storage/src/fs_storage/index.rs:22-92 | So does every run. |
| `WriteBehind.ClearKeeps` | crates/roci-storage/src/fs_storage/index.rs:83-90 | Clearing the mark is sound when the generation has not moved since the snapshot. |
| `WriteBehind.CleanFileIsCurrent` | crates/roci-storage/src/fs_storage/mod.rs:197-202 | In every reachable state a repository missing from the dirty map has a file with exactly the descriptors of a rebuild from the current metadata, unless a mutation of it is between apply and second mark. |
| `WriteBehind.CleanFileServesTags` | crates/roci-storage/src/fs_storage/index.rs:284-311 | Such a file resolves exactly the tags the metadata holds now, save those of digests it lists itself with odd annotations: a deleted or moved tag is never served from it. |
| `WriteBehind.ReadReflectsAcknowledged` | crates/roci-storage/src/fs_storage/index.rs:284-311 | In every interleaving a read returns an index derived from the metadata after two prefixes of the history, media types from the first and the rest from the second, both including every operation whose mutator had returned before the read began. |
| `WriteBehind.QuietReadIsCurrent` | crates/roci-storage/src/fs_storage/index.rs:284-311 | With no further operation on the repository the read is derived from exactly the current metadata. |
| `WriteBehind.FlushConverges` | crates/roci-storage/src/fs_storage/index.rs:56-92 | Convergence: from every reachable state with an idle flusher one undisturbed pass leaves no repository dirty and in place of every rewritten file a rebuild of the current metadata over that file. |
| `WriteBehind.SoloMutate` | crates/roci-storage/src/fs_storage/mod.rs:197-202 | A mutation nobody disturbs marks its repository before and after and answers; if it succeeds its operation is the last of the history and applied to the metadata, otherwise neither changes. |
| `WriteBehind.SoloRead` | crates/roci-storage/src/fs_storage/index.rs:284-311 | A read nobody disturbs answers with the file, or the empty index, when the repository is clean, and otherwise with a rebuild of the current metadata over that file; it changes nothing. |
| `Quota.ChargeExact` | crates/roci-storage/src/quota.rs:152-158 | A charge is exact iff the true total fits 64 bits; then one repository and the total grow by the size and the total stays the sum. |
| `Quota.ReleaseExact` | crates/roci-storage/src/quota.rs:78-93 | A release returns at most what is held and keeps the total the sum. |
| `Quota.ReleaseUndoesCharge` | crates/roci-storage/src/quota.rs:43-93 | A release undoes the charge it answers, for every repository. |
| `Quota.QuotaTracker.Admit` | crates/roci-storage/src/quota.rs:43-66 | Refused, repository cap first, iff a cap that is set and below the 64-bit limit is exceeded by what is used plus the size; a refusal, or no cap at all, leaves the counters, and caps that held still hold. |
| `Quota.QuotaTracker.ReleaseBytes` | crates/roci-storage/src/quota.rs:78-93 | The new counters, with the total still the sum. |
| `Quota.QuotaTracker.SeedAll` | crates/roci-storage/src/fs_storage/mod.rs:175-195 | After seeding, every counter equals the sizes of that repository's stored blobs. |
| `Quota.QuotaTracker.BeginSession` | crates/roci-storage/src/quota.rs:104-121 | Admitted iff below the cap; the cap is never exceeded. |
| `Quota.SessionsBalance` | crates/roci-storage/src/quota.rs:104-135 | Over any run of begins and ends the count stays within the cap and is opened minus closed all along iff every end closes an open session. |
| `Admission.OnlyHandle` | crates/roci-storage/src/lock_map.rs:35-42 | When a release forgets a lock, nobody else has a handle on it. |
| `Admission.StepKeepsLocks` | crates/roci-storage/src/lock_map.rs:15-42 | Every step keeps: unreleased tasks hold the handle the map lists, and guards exclude. |
| `Admission.StepKeepsAccount` | crates/roci-storage-s3/src/storage_impl.rs:258-314 | Every step, failing or not, keeps: tracked bytes are stored, reserved, or charged twice. |
| `Admission.StepUndisturbed` | crates/roci-storage-s3/src/storage_impl.rs:672-686 | Under the locks nobody stores behind a push that found its blob absent. |
| `Admission.MutualExclusion` | crates/roci-storage/src/lock_map.rs:15-42 | In every run at most one task per repository and digest is between acquiring its lock and giving it up, although locks leave the map. |
| `Admission.QuotaIsExact` | crates/roci-storage-s3/src/storage_impl.rs:491-538 | With nothing in flight, tracked equals stored plus bytes charged twice and the total is the sum; with all pushes locked, tracked equals stored. |
| `Admission.CapsHold` | crates/roci-storage/src/quota.rs:43-66 | In every reachable state the repository cap and the total cap hold of tracked and of stored bytes, and a total cap below the 64-bit limit rules saturation out. |
| `Admission.SoloPush` | crates/roci-storage-s3/src/storage_impl.rs:258-314 | The push steps add up to the call: on its own a push stores its blob and is charged exactly its size once, nothing if the blob was there or no cap is set; without room it changes neither store nor counters; either way the lock map is as before. |
| `Admission.UnlockedCommitsChargeTwice` | crates/roci-storage/src/fs_storage/storage_impl.rs:387-450 | From every state with room, two lockless commits of a new manifest can both be charged for one blob. |
| `Upload.AcceptedIff` | crates/roci-storage/src/upload_body.rs:140-214 | A body is accepted iff it arrives whole and within the limit, and then is the concatenation of its chunks. |
| `Upload.RefusedAtFirstProblem` | crates/roci-storage/src/upload_body.rs:152-187 | A body that is not accepted is refused at its first problem, a broken stream or the chunk that goes past the limit, with the length reached. |
| `Upload.Feed` | crates/roci-storage/src/upload_body.rs:164-174 | One chunk through the batch: file plus batch grow by the chunk, and the hash covers what was written. |
| `Upload.Receive` | crates/roci-storage/src/upload_body.rs:152-187 | The body loop: content received, or the first problem in order. |
| `Upload.AppendInner` | crates/roci-storage/src/upload_body.rs:140-214 | All or nothing: success appends exactly the content (file plus tail) with the hash extended over it; failure restores the file unless the rollback itself fails. |
| `Upload.WriteTail` | crates/roci-storage/src/upload_body.rs:113-128 | Writes and hashes the deferred tail, or fails leaving at most part of it. |
| `Upload.AppendThenTail` | crates/roci-storage/src/upload_body.rs:113-138 | The deferred form followed by the tail ends in the same file, length and hash as the direct form. |
| `Upload.UploadSession.Append` | crates/roci-storage/src/fs_storage/storage_impl.rs:102-141 | Across requests a carried hash is always the hash of the whole file; a wrong offset is refused untouched, and an ended session is not found. |
| `Upload.UploadSession.Finish` | crates/roci-storage/src/fs_storage/storage_impl.rs:157-316 | Accepted only with the digest of the whole content, carried or recomputed, and on a healthy disk exactly then; the session ends iff accepted, mismatched or oversized, and otherwise keeps its content for another try. |
| `Wal.FrontOfFrame` | crates/roci-storage/src/metadata/log.rs:733-745 | A framed record in front of anything is read back. |
| `Wal.FrameLayout` | crates/roci-storage/src/metadata/log.rs:733-745 | The bytes of a record: length with the least significant byte first, checksum, payload, and the tag of a keyed log. |
| `Wal.GenerationInFront` | crates/roci-storage/src/metadata/log.rs:809-856 | Only the first two records can set the generation, the second over the first. |
| `Wal.TornLogIsPrefix` | crates/roci-storage/src/metadata/log.rs:809-856 | A log cut at any byte reads back as exactly its complete records. |
| `Wal.IntactRecordsRead` | crates/roci-storage/src/metadata/log.rs:809-856 | Intact records are read back whatever follows them. |
| `Wal.SyncedSurvive` | crates/roci-storage/src/metadata/log.rs:506-520 | Records written before byte n survive a cut at n. |
| `Wal.ReplayLog` | crates/roci-storage/src/metadata/log.rs:809-856 | The loop interprets exactly the readable records, header and generation marker included. |
| `Wal.SomeCodec` | crates/roci-storage/src/metadata/log.rs:809-856 | For every log of fewer than 2^32 records some serialization is faithful, so the log results apply to every such log. |
| `Wal.CrashRecovery` | crates/roci-storage/src/metadata/log.rs:183-242 | Wherever the log was cut, begun fresh or compacted before, replay gives the state after exactly the complete operations. |
| `Wal.AppendedSurviveIff` | crates/roci-storage/src/metadata/log.rs:468-503 | Records appended behind a cut are all read back iff the bytes there begin with them all the same; all are lost iff the torn record, completed by them, is rejected. |
| `Wal.TornRejectedIff` | crates/roci-storage/src/metadata/log.rs:809-856 | A torn record is rejected iff too little follows or its checksum or tag disagree with the spliced payload. |
| `Wal.RecordsBegin` | crates/roci-storage/src/metadata/log.rs:809-856 | Any bytes are the records read from them, framed, and an unreadable rest. |
| `Wal.ReadAsIff` | crates/roci-storage/src/metadata/log.rs:809-856 | Exactly which bytes read as given records. |
| `Wal.LongTornRecordSwallows` | crates/roci-storage/src/metadata/log.rs:809-856 | A torn record longer than all that follows swallows it, whatever the checksum. |
| `Wal.CompactedLogReadsBack` | crates/roci-storage/src/metadata/log.rs:522-633 | The compacted file reads back as the same store up to media types, and the same iff tagged manifests agree with their last tags. |
| `Reopen.OpenLog` | crates/roci-storage/src/metadata/log.rs:183-242 | What opening leaves in the file and reads from it, for every content. |
| `Reopen.ReplayLegacy` | crates/roci-storage/src/metadata/log.rs:858-881 | The loop over a log without a header applies its readable operations. |
| `Reopen.ReplayAppliesOps` | crates/roci-storage/src/metadata/log.rs:809-881 | With a header or without, replay applies every operation in the log, in order, and nothing else. |
| `Reopen.KeptOfCut` | crates/roci-storage/src/metadata/log.rs:762-798 | Opening keeps a cut log, unless it is keyed and the cut fell into its header. |
| `Reopen.OtherFramingIsMovedAside` | crates/roci-storage/src/metadata/log.rs:183-242 | A log begun under the other framing, keyed or not, is moved aside whatever follows its header. |
| `Reopen.CutLogRecovers` | crates/roci-storage/src/metadata/log.rs:183-242 | Wherever the log was cut, and whether it is kept, moved aside or read without a header, opening gives the state after the complete operations. |
| `Reopen.ReopenedSurviveIff` | crates/roci-storage/src/metadata/log.rs:183-242 | A cut log, opened, appended to and opened again: when it is begun anew, when what was appended is read back, and the state in either case. |
| `GroupCommit.StepKeepsInv` | crates/roci-storage/src/metadata/log.rs:468-520 | Every step keeps: the file begins with the operations appended before the first half-written record, and as many of those as count as synced are on disk. |
| `GroupCommit.AcknowledgedReadBack` | crates/roci-storage/src/metadata/log.rs:381-388 | In every interleaving of appends and group commits, an acknowledged operation with no half-written record before it is read back, with all before it, whatever a power failure leaves of the unsynced part. |
| `GroupCommit.AcknowledgedSurvive` | crates/roci-storage/src/metadata/log.rs:381-388 | Without any half-written record, opening what is left gives the state after the operations in order, up to some point behind every acknowledged one. |
| `GroupCommit.HalfAppendLosesNext` | crates/roci-storage/src/metadata/log.rs:468-503 | After an append that stopped half way the next acknowledged operation is read back iff the splice reads as it, and lost whenever the torn record is rejected. |
| `GroupCommit.SoloCommit` | crates/roci-storage/src/metadata/log.rs:381-384 | A call nobody disturbs appends its record, syncs the whole file, raises the synced number to its own and is acknowledged with it. |
| `GroupCommit.SoloSync` | crates/roci-storage/src/metadata/log.rs:506-520 | A waiting call that is not covered yet syncs for everyone: it raises the synced number to that of the last record appended and is acknowledged with its own. |
| `GroupCommit.OneSyncServesAll` | crates/roci-storage/src/metadata/log.rs:506-520 | After that sync every other waiting call is acknowledged in its next step, whatever the disk does then. |
| `GroupCommit.RelaxedReturns` | crates/roci-storage/src/metadata/log.rs:386-388 | A relaxed call returns once its record is appended, without a sync. |
| `Compaction.CanonicalStays` | crates/roci-storage/src/metadata/log.rs:244-311 | No operation leaves empty entries or unknown tagged manifests. |
| `Compaction.ReplayAt` | crates/roci-storage/src/metadata/log.rs:809-856 | A repository's state after replay depends on its own operations only. |
| `Compaction.RepoRestored` | crates/roci-storage/src/metadata/log.rs:542-633 | A repository's image restores all but, perhaps, media types of tagged manifests. |
| `Compaction.CompactionRestores` | crates/roci-storage/src/metadata/log.rs:542-633 | Lossless for the whole store iff every tagged manifest agrees with its last tag in the walk. |
| `Compaction.RetaggingLosesMediaType` | crates/roci-storage/src/metadata/log.rs:555-569 | Two pushes after which compaction brings back the older media type. |
| `Stamp.UnwrapsExactlyWraps` | crates/roci-storage/src/fs_storage/fast_restart.rs:35-80 | Unwrapping accepts exactly the wraps of bodies below 4 GiB, and returns the body. |
| `Stamp.WrapLayout` | crates/roci-storage/src/fs_storage/fast_restart.rs:35-80 | The bytes of a stamp: length with the least significant byte first, body, and its tag or its checksum filled up with zeros. |
| `Stamp.WrapSurvivesIff` | crates/roci-storage/src/fs_storage/fast_restart.rs:35-80 | A wrapped body comes back iff it is below 4 GiB. |
| `Restart.AppliedAtMostOnce` | crates/roci-storage/src/fs_storage/fast_restart.rs:161-214 | Under crashes and power failures at any point no stamp is applied twice. |
| `Restart.AppliedOnlyNext` | crates/roci-storage/src/fs_storage/fast_restart.rs:109-116 | Wherever the machine crashes, with whatever loss, and starts again, applied stamps are those of the session just before, iff the run never has an older stamp on disk at a position a start might find. |
| `Restart.ThreatIsReal` | crates/roci-storage/src/fs_storage/fast_restart.rs:161-214 | Every such stamp is applied late after one crash and one start. |
| `Restart.SessionLeavesThreatIff` | crates/roci-storage/src/fs_storage/mod.rs:80-110 | Exactly which sessions leave such a stamp, whatever log changes and write-backs they contain and however they end. |
| `Restart.SomeCrashThreatensIff` | crates/roci-storage/src/metadata/log.rs:386-388 | For a log that is appended to, synced and compacted, some crash leaves such a stamp iff a durable one lies at or after the synced part or a visible one at the end. |
| `Restart.UnsyncedRemovalGoesStale` | crates/roci-storage/src/fs_storage/fast_restart.rs:161-214 | A run from the first start in which a removal that was never synced brings a stamp back late. |
| `Restart.UnreadStampGoesStale` | crates/roci-storage/src/fs_storage/fast_restart.rs:161-214 | A run from the first start in which a stamp that could not be read is applied two sessions late. |
| `Restart.LostTailGoesStale` | crates/roci-storage/src/metadata/log.rs:386-388 | A run in which a session did change the metadata, a power failure takes the unsynced records back, and the stamp is applied late. |
| `Restart.DisabledSessionGoesStale` | crates/roci-storage/src/fs_storage/maintenance.rs:21-29 | A run without any crash in which a session with fast restart switched off lets a stamp go stale. |
| `Paging.PageSortedIsPage` | crates/roci-storage/src/layout.rs:67-76 | Paging a sorted list gives the first names after the cursor, nothing skipped, and `more` iff something is left. |
| `Paging.PageUnique` | crates/roci-storage/src/metadata/mod.rs:118-131 | A page is determined by the names, the cursor and the limit, so both listing paths return the same. |
| `Paging.BeforeIff` | crates/roci-storage/src/layout.rs:67-76 | The order of names is decided at the first place where they differ, a proper beginning first. |
| `Paging.LayoutTagsPage` | crates/roci-storage/src/layout.rs:118-131 | The page of the set of tags the index lists. |
| `Paging.FileListsTags` | crates/roci-storage/src/layout.rs:118-131 | The tags listed from a rebuilt file are the metadata's save those of unlistable digests. |
| `Paging.ListingPathsAgree` | crates/roci-storage/src/metadata/mod.rs:118-131 | Pages listed from the metadata and from the rebuilt file are equal at every cursor and limit when no tagged digest is unlistable, and the two list different sets otherwise. |
| `Paging.RunInOrder` | crates/roci-core/src/listing.rs:28-51 | However names change between fetches, they come in order and none twice. |
| `Paging.FinishedRunIsComplete` | crates/roci-core/src/listing.rs:28-51 | A finished run returns every name present throughout exactly once. |
| `Paging.ListAll` | crates/roci-core/src/listing.rs:28-51 | On a fixed set following the cursor terminates with all names in order, for every positive limit. |
| `Paging.PageLimit` | crates/roci-core/src/listing.rs:24-26 | At most the client's and the server's limit, and zero iff one of them is. |
| `Paging.ZeroLimitListsNothing` | crates/roci-core/src/listing.rs:28-51 | With a limit of zero a listing is one empty page. |
| `JsonDepth.JsonDepthExceeds` | crates/roci-core/src/manifests.rs:19-48 | The byte loop computes the scan. |
| `JsonDepth.ScanValue` | crates/roci-core/src/manifests.rs:19-48 | A value contributes its depth and leaves the scanner where it found it. |
| `JsonDepth.ScanIsExact` | crates/roci-core/src/manifests.rs:19-48 | For every JSON text, spacing and escapes included, the scan says yes iff the nesting is deeper than the maximum. |
| `Names.ComponentIff` | crates/roci-core/src/names.rs:44-74 | Reading left to right decides the component grammar. |
| `Names.ComponentLocally` | crates/roci-core/src/names.rs:44-91 | A component checked character by character: letters or digits at both ends, only '.', '_' and '-' besides, and two of these together only in a run of dashes or as two underscores by themselves. |
| `Names.OneCharacter` | crates/roci-core/src/names.rs:44-91 | The one-character components are the lower-case letters and the digits. |
| `Names.NameSplits` | crates/roci-core/src/names.rs:14-24 | A text is a name iff all its '/'-components are components. |
| `Names.ValidateNameComponent` | crates/roci-core/src/names.rs:44-91 | Accepts exactly the components of the grammar. |
| `Names.ParseRepositoryName` | crates/roci-core/src/names.rs:14-24 | Accepts exactly the grammar's names of at most 255 bytes. |
| `Names.IsRepoPrefix` | crates/roci-config/src/lib.rs:1058-1084 | Accepts the same language as the request path. |
| `RateLimit.TokenBucket.TryAcquire` | crates/roci-core/src/ratelimit.rs:43-59 | Grants iff a token is there after refill; tokens stay in the bucket; the advertised wait is enough and one second less is not. |
| `RateLimit.WaitIsExact` | crates/roci-core/src/ratelimit.rs:53-57 | The advertised wait is the least number of whole seconds that suffices. |
| `RateLimit.RunSound` | crates/roci-core/src/ratelimit.rs:43-59 | Tokens stay within zero and burst through every run. |
| `RateLimit.WindowBound` | crates/roci-core/src/ratelimit.rs:26-59 | In any window of any run at most burst + rate * length attempts are granted. |
| `Cache.KeyInjective` | crates/roci-storage/src/cache.rs:37-43 | Distinct blobs have distinct keys when repository names contain no NUL. |
| `Cache.WithoutCuts` | crates/roci-storage/src/cache.rs:62-94 | Looking a key up finds its one entry, and taking it out keeps the others in order. |
| `Cache.SmallBlobCache.Get` | crates/roci-storage/src/cache.rs:62-66 | The cached bytes; a hit becomes most recent and nothing else changes. |
| `Cache.SmallBlobCache.Put` | crates/roci-storage/src/cache.rs:68-85 | The accepted entry is in front and what remains is the longest most-recently-used run that fits; the counter is the sum and within capacity. |
| `Cache.SmallBlobCache.Evict` | crates/roci-storage/src/cache.rs:81-84 | Eviction ends within budget without an empty pop or underflow, and never drops the newest. |
| `Cache.SmallBlobCache.Invalidate` | crates/roci-storage/src/cache.rs:87-94 | Exactly that entry is gone, and the counter follows. |

## Left out

- HTTP handlers, routing, TLS, authentication back ends, telemetry and the command line: plumbing over libraries.
- Filesystem calls, the object-store client, multipart transfer and signed redirects: atomic steps that may fail.
- Hash functions, message authentication, checksums and JSON parsing: arbitrary functions; record serialization is taken to be faithful on the records of the log at hand, so a referrer descriptor that is not UTF-8 is outside the log results.
- The inside of the presence filter: it is the set of blobs it lets through, at least everything stored; as a guard of existence checks it only saves a look-up. The dedupe index: it steers which copy a publish makes.
- Progress of the garbage-collection fence: it depends on the fairness of the lock; only safety is proved.
- Deletes next to pushes in the quota account: a delete takes no admission lock, so exactness is claimed for runs without one.
- Registry.Storage.NoteBlobEntered: leaves out the checksum record and the dedupe entry, which the orphan rule does not depend on.
- Cancellation of a push between its charge and its publish, which leaves the charge behind.
- A startup rebuild concurrent with pushes: the rebuild is one call, and the protocol results start from its outcome.
- Interleavings inside the metadata reads of one rebuild are folded into two steps, known manifests with their media types first, tags and referrers later; the source reads tags, referrers and each media type by separate calls.
- Upload.UploadSession.Finish: publishing and quota rejection after the digest check are in `Admission`, and a failing removal of an ended session is left out.
- Upper-case hexadecimal in digests: parsing accepts and lowers it; the model starts from the canonical spelling.
- A disabled garbage collector: `Registry.Storage` is about an enabled tracker.
- Compaction during a group commit, and one whose directory sync fails and leaves the store appending to the replaced file: `GroupCommit` is about the time between two compactions.
- Several backends sharing one quota tracker, `LockMap::remove` for upload sessions, the scrubber, stale-upload sweeps, and the per-client bucket map.
- The filter by artifact type when listing referrers: it narrows the set that is paged and adds nothing to paging.
- Upload.WriteTail: a tail whose write and truncation both fail may leave part of itself behind, as in the source, where the truncation result is ignored.
- Session and sequence counters are unbounded; byte counters of the quota are 64-bit and saturate.
- Floating-point rounding in the token bucket: arithmetic is over reals.
