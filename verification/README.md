# Fulcra collectors: concurrency, crash and round-trip properties

A Dafny model of the parts of the Fulcra collectors that keep state over runs of any length, with
proofs of what they promise. `dafny verify dfyconfig.toml` checks the whole project.

* **Config store** (`ConfigMerge`, `ConfigStore`, `ConfigProtocol`, `ConfigProgress`). Processes load the
  configuration document, edit a private copy and save it by a three-way merge with explicit intents; a
  save rotates per-plugin epochs and preserves the account-transition gate; workers hold shared leases
  around a final consent check and an external write. The protocol is a state machine whose steps
  interleave freely, with a crash possible at every one.
* **Duplicate planner** (`UnionFind`, `DupVisits`, `DupPlanner`, `DupAdmission`, `DupDeletes`). Union-find with path
  halving over the sources records share, the keep/delete/skip plan, and journaled deletes that survive
  kills. Visits are defined independently, by chains of records.
* **Apple Notes** (`TextLines`, `NoteHeader`, `NoteText`, `NoteReader`, `NoteMerge`, `NoteLayout`,
  `NoteRemerge`, `NoteRender`, `NoteFields`, `NoteSync`, `NoteCrash`, `NoteConverge`, `NoteSweep`,
  `NoteReconcile`, `NoteUploads`, `NotePasses`, `ReconcileScan`, `ReconcileReport`, `Writeback`,
  `ProtoWire`, `NoteBody`, `NoteBlocks`). The fenced merge on real text, also over files whose frontmatter
  or fence a user moved; the reader's patterns; rendering; crash-resumable sync and its deletion sweep;
  three-way classification, the resumable scan, guarded writeback, and the protobuf and body decoders
  underneath. What a pass makes durable is a list of events; a killed pass is a prefix of it.
* **Service supervisor** (`Supervisor`). Backoff, crash-loop detection and recovery over runs of ticks.
* **Exactly-once bookkeeping** (`DedupClaims`, `Arrivals`, `WakeBudget`, `MessageCodec`,
  `MessageReading`). Dedup claims, the arrival ledger, the wake budget and the message codec.

Objects whose methods update fields are classes here (`Config`, `Store`, `Forest`, `ServiceSupervisor`,
`ForwardedEvents`, `Session`, `Budget`); loops are methods proved equal to a specification function, and
the promises are lemmas about those functions. `Picking` says what it means to filter a list in order.

Hashes, uuids, clocks, local files and the network are parameters. Hashing is an arbitrary function; the
lemmas about reading back what sync wrote (`NoteReconcile.SyncThenReconcile` and the two after it,
`Writeback.ReplacedBodyIsTheSyncedOne`) assume it injective. The results on `run_sync` assume that
notes in the store have distinct files, which no vanished note's entry names, and that a media id has one
file name (`NoteCrash.MediaConsistent`); `NoteUploads.UploadedOnce` also that an upload's path names its
media id, as `attachment_path` makes it.
JSON stands for the record it encodes. Deadlines are a count of the checks that still pass.

## Where the code and the expected property differ

* A merge drops a blank line at the end of the frontmatter (`splitlines`), so unmanaged lines are all kept
  exactly when there is none (`NoteMerge.MergeKeepsUserText`), and two merges differ from one exactly when
  every managed key was present above two blank lines (`NoteMerge.MergeAbsorbs`).
* A note whose first rendering holds a fence of its own is written but can never be merged again: a kill
  before the save then keeps it from ever being recorded (`NoteConverge.NeverRecorded`). The same happens
  where a user moved the opening tag onto the line of a managed key, and a body that ends frontmatter left
  open takes the time stamp into its section (`NoteConverge.TwoSections`). A note converges exactly outside
  these cases (`NoteConverge.ConvergesIff`).
* Marking a file as deleted also takes blank lines below the flag, and the line below an empty one
  (`NoteSweep.OnlyFlagMoves`, `NoteSweep.MarkTakesRule`).
* A kill between a deletion mark and the save loses the entry's `deleted` flag for good
  (`NoteSweep.KillLosesFlag`, `NoteSweep.LostFlagStaysLost`).
* The merge counts literal tags, the reader accepts other spacing and owners: a body with a closing tag
  spelled differently is written whole, read back short and classified as edited in the vault
  (`NoteReconcile.OtherSpellingIsEdited`; exactly when, in `NoteReconcile.PlainSyncThenReconcile`).
* A blank body is written as a notice and then classified as edited in the vault
  (`NoteReconcile.PlainSyncThenReconcile`).
* A value with a separator other than a line feed is not always quoted, and is then cut by `splitlines`
  (`NoteRender.FieldIsOneLine`), and a quoted one with a line feed or carriage return does not read back
  (`NoteFields.FieldReadsBackIff`).
* Planning again after a plan that skipped records can delete a skipped one
  (`DupPlanner.ReplanCanDeleteSkipped`; exactly when, in `DupVisits.ReplanDeletesIff`).
* A claim that loses still records its other keys, which can block an event nothing ever posted
  (`DedupClaims.BlockedWithoutPost`; exactly when, in `DedupClaims.ClaimWinsIff`).
* The arrival ledger remembers 800 ids: a message with that many behind it, within the overlap of the
  watermark, is found new again (`Arrivals.FoundAgainIff`).
* A mesh message or reply whose topic ends in `-ack` fails the read-back after sending, and a topic ending in
  `-ack` or `-retracted` decides the kind the reader sees (`MessageCodec.OwnReadbackIff`,
  `MessageCodec.EncodeRoundTrip`).
* The wake budget bounds half-open hours; an hour with both ends can hold up to eight wakes
  (`WakeBudget.ClosedHourIff`, `WakeBudget.ClosedHourHoldsEight`).
* `iter_chunks` does not end for a step of zero or below (`DupDeletes.ChunksEndIff`), and `decide_restart`
  never reaches its nominal 60 seconds (`Supervisor.BackoffIsSmall`).

## Model

| member | source | states |
|---|---|---|
| ConfigMerge.MergeMapping | packages/collect/fulcra_collect/config.py:164-182 | the loop over edited keys returns, for flat mappings and for plugin tables, exactly the key-by-key merge, or refuses as a whole |
| ConfigMerge.MergeSettings | packages/collect/fulcra_collect/config.py:185-202 | enabled flags, intervals, plugin settings and the port merge together or not at all |
| ConfigMerge.NoLostUpdate | packages/collect/fulcra_collect/config.py:156-182 | an edited or submitted field is published as requested, every other keeps what disk holds now, and a disk value is replaced only while it still is the saver's baseline |
| ConfigMerge.NoLeafIsLost | packages/collect/fulcra_collect/config.py:156-202 | in every save that goes through, at every flag, interval, plugin field, setting that is no table and the port: edited or submitted means published as requested, unedited means published as on disk, and what disk holds is replaced only while it is the baseline |
| ConfigMerge.RefusedIff | packages/collect/fulcra_collect/config.py:144-202 | a save is refused exactly if some leaf clashes - an enabled flag, an interval, a field of a plugin table, a plugin as a whole, or the port: the saver edited or submitted it and disk holds neither its baseline nor its request |
| ConfigMerge.SaveOverBaseline | packages/collect/fulcra_collect/config.py:156-182 | over a document that did not move, the merge is exactly the request |
| ConfigMerge.DisjointSavesCommute | packages/collect/fulcra_collect/config.py:164-182 | saves from one baseline that edit different plugins, or different fields of one table (also one both create), both succeed and commute |
| ConfigMerge.DisjointSettingsCommute | packages/collect/fulcra_collect/config.py:185-202 | the same law for whole documents: flags, intervals, plugin settings and port |
| ConfigStore.Config.Load | packages/collect/fulcra_collect/config.py:108-136 | a loaded Config holds the document, a detached baseline and no intents |
| ConfigStore.Config.Enable | packages/collect/fulcra_collect/config.py:90-92 | enabling also records the intent, changed or not |
| ConfigStore.Config.Disable | packages/collect/fulcra_collect/config.py:94-96 | disabling also records the intent, changed or not |
| ConfigStore.Config.SetInterval | packages/collect/fulcra_collect/config.py:98-100 | an interval is set and remembered as submitted |
| ConfigStore.Config.UpdatePluginSettings | packages/collect/fulcra_collect/config.py:102-105 | every submitted field is set and remembered as explicit; no other field or plugin moves |
| ConfigStore.Config.RotatePluginEpoch | packages/collect/fulcra_collect/config.py:85-88 | a new uuid becomes the plugin's private epoch and is marked as an explicit rotation |
| ConfigStore.FreshEpochs | packages/collect/fulcra_collect/config.py:261-271 | exactly the plugins whose flag or settings the save changes get uuids drawn now, all distinct |
| ConfigStore.Config.SaveLocked | packages/collect/fulcra_collect/config.py:242-299 | a save succeeds exactly if the merge does and the file can be replaced; success publishes merge, epochs and gate and resets the Config, failure changes neither disk nor Config |
| ConfigStore.RotateAndSave | packages/collect/fulcra_collect/config.py:302-326 | invalidations and both transition saves never conflict, give every target an epoch never drawn before and move nothing else |
| ConfigStore.StaleSaveKeepsEpochs | packages/collect/fulcra_collect/config.py:261-271 | a step towards NoAba: a save moves only epochs it rotated or whose plugin it effectively changed |
| ConfigStore.ChangedPluginGetsFreshEpoch | packages/collect/fulcra_collect/config.py:268-271 | a step towards NoAba: a plugin whose flag or settings change on disk gets an epoch drawn during that save |
| ConfigProtocol.StepKeepsInv | packages/collect/fulcra_collect/config.py:205-344 | every step of every process (edit, save, invalidation, transition, lease, external write, crash) keeps the protocol invariant |
| ConfigProtocol.MutationsRunUnderCapturedConsent | packages/apple-reminders/fulcra_apple_reminders/collect_plugin.py:16-31 | in every run, while an external write is in flight the account, the enabled flag, the settings and the epoch are those captured at the start, the gate is open, no one holds a lock exclusively, and the lists that may be touched are exactly those the document's selected_lists names |
| ConfigProtocol.SelectionMeans | packages/apple-reminders/fulcra_apple_reminders/collect_plugin.py:16-31 | the check under the leases allows nothing unless the gate is open and the plugin enabled, off preview and at the captured epoch; then it refuses exactly a setting that is no list of distinct, non-blank texts, and allows exactly its names |
| ConfigProtocol.NoAba | packages/collect/fulcra_collect/config.py:85-88 | if a plugin's epoch on disk, or its absence, is equal at two times of a run, its epoch, flag and settings were equal in every document between them |
| ConfigProtocol.PublishedEpochIsNew | packages/collect/fulcra_collect/config.py:261-272 | a publication leaves a plugin entirely alone or gives it an epoch no document ever had |
| ConfigProtocol.TransitionRotatesAll | packages/collect/fulcra_collect/config.py:321-326 | both saves of a transition keep the settings and give a new epoch to every plugin that is enabled, has settings or has an epoch |
| ConfigProtocol.GateReopensOnlyByTransition | packages/collect/fulcra_collect/config.py:256-259 | a closed gate opens only by the opening save of a transition, whatever stale Configs are saved |
| ConfigProtocol.GateStaysClosedUntilCompletion | packages/collect/fulcra_collect/config.py:329-344 | between a closed and a later open gate some process came through its token-changing state, held the account lock without a break and published the opening: a crashed or failed transition leaves the gate closed |
| ConfigProtocol.AccountChangesBehindTheGate | packages/collect/fulcra_collect/config.py:329-344 | the token changes only while the gate is closed and no external write is in flight |
| ConfigProtocol.NoDeadlock | packages/collect/fulcra_collect/config_leases.py:29-41 | no nonempty set of processes is blocked within itself: account before config admits no lock cycle |
| ConfigProtocol.UnblockedIsGranted | packages/collect/fulcra_collect/config_leases.py:10-26 | a waiting process that no one blocks meets the condition under which its lock is granted |
| ConfigProtocol.UnobstructedWorkerActs | packages/collect/fulcra_collect/config_leases.py:29-41 | a consented worker no one locks out reaches its external write in four steps |
| ConfigProgress.UnobstructedSavePublishes | packages/collect/fulcra_collect/config.py:242-299 | a save whose edits do not clash, and that no one locks out, publishes the merge in four steps and leaves the Config as if just loaded |
| ConfigProgress.RotationPublishes | packages/collect/fulcra_collect/config.py:302-326 | an invalidation or transition save that no one locks out publishes in two steps: its targets get uuids drawn now, every other epoch and all settings stay, and only a transition moves the gate |
| ConfigProgress.UnobstructedTransitionCompletes | packages/collect/fulcra_collect/config.py:321-344 | a transition that no one locks out closes the gate, changes the token behind it and opens it again, and every plugin the document knows has a new epoch |
| UnionFind.Forest.Find | packages/attention/scripts/cleanup_attention_dups.py:236-240 | terminates, returns the root, shortens paths and changes no root |
| UnionFind.Forest.Union | packages/attention/scripts/cleanup_attention_dups.py:242-247 | the classes of both sources become one under the lesser root, no other class moves |
| UnionFind.Forest.Add | packages/attention/scripts/cleanup_attention_dups.py:262-263 | a new source is its own root, a known one changes nothing |
| UnionFind.HalvingKeepsRoots | packages/attention/scripts/cleanup_attention_dups.py:238 | path halving changes no root |
| UnionFind.JoinUnites | packages/attention/scripts/cleanup_attention_dups.py:246-247 | hanging the greater root under the lesser moves exactly its own class |
| DupPlanner.AttentionSourcesOf | packages/attention/scripts/cleanup_attention_dups.py:207-211 | exactly the attention sources of a record, in strictly ascending order |
| DupAdmission.AdmittedAreFirsts | packages/attention/scripts/cleanup_attention_dups.py:249-266 | planned for are, in order, of each id the first record that has it and lists an attention source |
| DupPlanner.Register | packages/attention/scripts/cleanup_attention_dups.py:262-265 | after a record's unions the forest represents the chains of the records including it |
| DupPlanner.Admit | packages/attention/scripts/cleanup_attention_dups.py:249-266 | the forest of all admitted records represents exactly their chains |
| DupPlanner.SameRootIffLinked | packages/attention/scripts/cleanup_attention_dups.py:233-247 | two sources have one root if and only if a chain of records sharing sources links them |
| DupPlanner.RootIsLeast | packages/attention/scripts/cleanup_attention_dups.py:233 | the root is the least source of its component |
| StringOrder.LessIff | packages/attention/scripts/cleanup_attention_dups.py:246 | the order of sources is the lexicographic one by code points, a prefix first |
| DupVisits.BeforeMeans | packages/attention/scripts/cleanup_attention_dups.py:274-280 | records are in the order of their start times, one without a start before every dated one, and of equal starts the lesser id first |
| DupPlanner.GroupByRoot | packages/attention/scripts/cleanup_attention_dups.py:268-270 | one group per root, holding the admitted records of that component in order |
| DupPlanner.SortRecords | packages/attention/scripts/cleanup_attention_dups.py:274-280 | the records of a group in the order (start_time, id), none lost or added |
| DupPlanner.PlanGroup | packages/attention/scripts/cleanup_attention_dups.py:274-292 | of a visit the least record is kept, records recorded when it was are deleted, the others skipped |
| DupPlanner.BuildPlan | packages/attention/scripts/cleanup_attention_dups.py:214-302 | the plan is the keep, delete and skip sets of the visits defined by chains, without repeats; keepers are filed under their least source, and the skipped map has one entry, under the least source, for each visit that skipped anything, with its skipped ids in record order |
| DupVisits.OneKeeperPerVisit | packages/attention/scripts/cleanup_attention_dups.py:225-226 | every visit has exactly one kept record |
| DupVisits.PlanPartitions | packages/attention/scripts/cleanup_attention_dups.py:285-301 | keep, delete and skip partition the distinct eligible record ids |
| DupPlanner.AdmissionIgnoresOrder | packages/attention/scripts/cleanup_attention_dups.py:251-266 | what is planned for depends on the set of records alone, not on order or repeated fetches |
| DupPlanner.PlanIgnoresOrder | packages/attention/scripts/cleanup_attention_dups.py:214-302 | the keep, delete and skip sets are the same for any order of the input |
| DupVisits.ReplanDeletesIff | packages/attention/scripts/cleanup_attention_dups.py:214-302 | planning over the survivors deletes a record exactly if it was skipped, its component among the survivors no longer holds its keeper, it is not the least record there and it was recorded when the least one was |
| DupVisits.ReplanDeletesNothing | packages/attention/scripts/cleanup_attention_dups.py:452-457 | so when nothing was skipped, planning over the survivors deletes nothing |
| DupPlanner.ReplanCanDeleteSkipped | packages/attention/scripts/cleanup_attention_dups.py:285-292 | and it does happen: once a deleted clone no longer bridges the visit, one of two skipped records becomes a clone of the other |
| DupPlanner.BridgedExists | packages/attention/scripts/cleanup_attention_dups.py:285-292 | records of that kind exist |
| DupDeletes.IterChunks | packages/attention/scripts/cleanup_attention_dups.py:134-141 | wherever the loop ends, the windows follow one another from start to end, none empty, none longer than the step |
| DupDeletes.ChunksEndIff | packages/attention/scripts/cleanup_attention_dups.py:134-141 | the loop reaches the end exactly if the step is positive or there is nothing to cover |
| DupDeletes.ChunksCover | packages/attention/scripts/cleanup_attention_dups.py:134-141 | a moment is in some window exactly if it is in the whole |
| DupDeletes.ChunksApart | packages/attention/scripts/cleanup_attention_dups.py:134-141 | windows do not overlap |
| DupDeletes.RunDeletes | packages/attention/scripts/cleanup_attention_dups.py:355-389 | the loop equals its specification over the list, the journal and the answers |
| DupDeletes.RunIsSafe | packages/attention/scripts/cleanup_attention_dups.py:355-389 | wherever a run is killed, it deleted only ids of its list and journaled only gone ones |
| DupDeletes.KillsAreSafe | packages/attention/scripts/cleanup_attention_dups.py:355-389 | over any number of killed and resumed runs nothing outside the delete list is deleted |
| DupDeletes.ResumedRunDeletesAll | packages/attention/scripts/cleanup_attention_dups.py:361-376 | after any kills a run without failures leaves every id of the list deleted |
| DupDeletes.JournaledIsNotRetried | packages/attention/scripts/cleanup_attention_dups.py:355-376 | what a run journaled before it was killed no resumed run deletes again |
| DupDeletes.CountsAddUp | packages/attention/scripts/cleanup_attention_dups.py:365-389 | the counters add up to the ids not in the journal, unless five failures in a row stop the run |
| DupDeletes.StopsIffFiveFail | packages/attention/scripts/cleanup_attention_dups.py:365-389 | a run stops early exactly if five attempts in a row fail, an id already journaled being none |
| DupDeletes.DeletedIff | packages/attention/scripts/cleanup_attention_dups.py:365-389 | an id is deleted, and journaled, exactly if an attempt at it is made and accepted before five in a row have failed |
| NoteHeader.UpdateHeader | packages/apple-notes/fulcra_apple_notes/render.py:173-186 | the in-place loop over the generated header lines equals its line-by-line specification |
| NoteHeader.PutAllIsUpdated | packages/apple-notes/fulcra_apple_notes/render.py:173-186 | the loop refuses exactly when some managed key is repeated or followed by an indented line; otherwise each managed line replaces the line of its key or is appended in order |
| NoteHeader.UpdateKeepsUnmanaged | packages/apple-notes/fulcra_apple_notes/render.py:168-187 | every line without a managed key stays, in order |
| NoteHeader.UpdateAbsorbs | packages/apple-notes/fulcra_apple_notes/render.py:173-186 | of two edits with the same keys only the second is seen |
| NoteText.TextOfNote | packages/apple-notes/fulcra_apple_notes/render.py:157-172 | a text with one ordered fence pair after its frontmatter is cut into header, user text and owned section without loss |
| NoteText.NoteOfText | packages/apple-notes/fulcra_apple_notes/render.py:157-172 | and the cut is unique |
| NoteMerge.MergeNote | packages/apple-notes/fulcra_apple_notes/render.py:157-187 | the method returns the specified merge or refusal |
| NoteMerge.MergedIsNote | packages/apple-notes/fulcra_apple_notes/render.py:157-187 | on notes the merge is the closed form, refused exactly if the metadata is ambiguous |
| NoteMerge.MergedNoteOk | packages/apple-notes/fulcra_apple_notes/render.py:157-187 | the merged text again has exactly one ordered fence pair, after a frontmatter that closes before it |
| NoteMerge.MergeKeepsUserText | packages/apple-notes/fulcra_apple_notes/render.py:157-187 | all text outside the fence and all unmanaged lines stay, in order; every one of them exactly if the frontmatter does not end in a blank line, which is dropped |
| NoteMerge.MergePublishesMetadata | packages/apple-notes/fulcra_apple_notes/render.py:174-187 | every generated line is in the merged frontmatter |
| NoteMerge.MergeReplacesBody | packages/apple-notes/fulcra_apple_notes/render.py:163-167 | the owned section of a merge is the generated one |
| NoteMerge.MergeAbsorbs | packages/apple-notes/fulcra_apple_notes/render.py:157-187 | merging g2 after g1 never refuses and gives what merging g2 alone gives, exactly unless every managed key was present and the frontmatter ended in two blank lines; with g1 = g2 this is idempotence |
| NoteRender.RenderFile | packages/apple-notes/fulcra_apple_notes/render.py:117-154 | appending the parts gives the file part by part: frontmatter, the warning exactly for a deleted note, the fenced body or the notice for a blank one, the notice of missing attachments exactly if there are any, and the log |
| NoteRender.FrontLinesAreManaged | packages/apple-notes/fulcra_apple_notes/render.py:73-89 | generated frontmatter has one `key: value` line per field to a reader that splits at line feeds, with distinct keys, whatever the values |
| NoteRender.FieldIsOneLine | packages/apple-notes/fulcra_apple_notes/render.py:73-80 | a field is one line to `splitlines` too exactly if its value has none of the other separators, or is quoted and only has carriage returns |
| NoteFields.RenderedSays | packages/apple-notes/fulcra_apple_notes/render.py:91-116 | under each key the frontmatter gives the value of that property of the note, and has no line for a date it lacks |
| NoteFields.FieldReadsBackIff | packages/apple-notes/fulcra_apple_notes/reconcile.py:54-71 | reading a field back gives its value exactly if it holds no line feed and, where it is quoted, no carriage return |
| NoteRender.OneFenceIffOk | packages/apple-notes/fulcra_apple_notes/render.py:159-162 | a generated text has one ordered fence pair exactly if none of its parts holds a fence |
| NoteRender.ParseRendered | packages/apple-notes/fulcra_apple_notes/reconcile.py:54-76 | reading a rendered file back gives the body, or the notice written for a blank one, exactly if no tag the reader accepts comes before the body's own, nor a closing one inside it |
| NoteRender.ParsePlain | packages/apple-notes/fulcra_apple_notes/reconcile.py:54-76 | with no `<` in the metadata that is: exactly if no line of what is shown starts with a closing tag the reader accepts |
| NoteReader.ParseIsSearch | packages/apple-notes/fulcra_apple_notes/reconcile.py:26-30 | a leftmost match of the pattern with the shortest body is what the parse returns |
| NoteReader.NoBodyNoMatch | packages/apple-notes/fulcra_apple_notes/reconcile.py:72-76 | the parse returns nothing exactly if the pattern matches nowhere |
| NoteReader.ReadBackIff | packages/apple-notes/fulcra_apple_notes/reconcile.py:26-30 | a body without the literal tags, written between them, is read back exactly if no accepted opening tag in front of it captures the search and no line of it starts with an accepted closing tag |
| NoteReader.OwnerReader | packages/apple-notes/fulcra_apple_notes/reconcile.py:26-30 | the two patterns of the source, with any white space and any owner, accept the tags that render.py writes, and have the shape these results ask of a reader |
| NoteReader.OtherSpellingCuts | packages/apple-notes/fulcra_apple_notes/reconcile.py:26-30 | the body "a", closing tag without its spaces, "b" holds no literal tag and reads back as "a" |
| NoteSync.SyncAttachments | packages/apple-notes/fulcra_apple_notes/sync.py:189-252 | the loop over a note's attachments equals its specification: links, uploads, state and deadline |
| NoteSync.OneNote | packages/apple-notes/fulcra_apple_notes/sync.py:297-388 | one turn of the note loop: decode, attachments, skip if current, merge or write, record, checkpoint |
| NoteSync.RunSync | packages/apple-notes/fulcra_apple_notes/sync.py:255-421 | a whole pass: notes up to limit or deadline, deletion sweep, final save |
| NoteUploads.RecordsAreUploaded | packages/apple-notes/fulcra_apple_notes/sync.py:234-240 | in every pass each state saved, and the one it ends in, names only files recorded at its start or uploaded before, at that path with that fingerprint |
| NoteUploads.KillsLoseNoUpload | packages/apple-notes/fulcra_apple_notes/sync.py:234-240 | after any kills the saved state names only files that were uploaded, or known at the start |
| NoteUploads.UploadedIffPending | packages/apple-notes/fulcra_apple_notes/sync.py:200-246 | a complete pass uploads a file exactly if it is a readable attachment of a note that decodes, and the state at the start did not have it at that path with that fingerprint |
| NoteUploads.UploadedOnce | packages/apple-notes/fulcra_apple_notes/sync.py:192 | no pass uploads a file twice, however many notes share it |
| NotePasses.PassCheckpoints | packages/apple-notes/fulcra_apple_notes/sync.py:381-404 | the state is saved right after each write that makes the checkpoint interval, so a kill among the notes loses no more writes than that; the sweep follows in a complete unlimited pass only, and the last event saves the state the pass ends in |
| NotePasses.PassLog | packages/apple-notes/fulcra_apple_notes/sync.py:293-404 | every write of a pass is the first to its file, and is that of a note to be written among the first `limit`, or in a complete pass the mark of a vanished note; every saved state has the planned entry of each note written so far and of every other note the entry there was |
| NotePasses.WrittenIffWritable | packages/apple-notes/fulcra_apple_notes/sync.py:310-383 | a complete pass writes the file of a note exactly if the note is one to be written at its start; an undecodable one never is |
| NotePasses.WriteMeans | packages/apple-notes/fulcra_apple_notes/sync.py:329-383 | for a note that decodes, field by field: a complete pass writes its file unless the entry is that of its body, date and flag or the file refuses the merge; the file is then the rendered text, merged into the one there was, and the entry has its path, body hash, date, title and flag; else file and entry stay |
| NotePasses.LinksMean | packages/apple-notes/fulcra_apple_notes/sync.py:204-252 | the body is written with, for each attachment id, the link of its last attachment that has one: the place of its readable file, else the one recorded |
| NotePasses.MissingIs | packages/apple-notes/fulcra_apple_notes/sync.py:327 | the notice counts the attachments without a file |
| NotePasses.SecondPassIsQuiet | packages/apple-notes/fulcra_apple_notes/sync.py:413-416 | after a complete pass, whatever kills came before it, the next pass over the same store uploads, writes and marks nothing |
| NoteCrash.SyncKeeps | packages/apple-notes/fulcra_apple_notes/sync.py:255-421 | a pass keeps the invariant at every point a kill could leave; a complete one settles every note |
| NoteConverge.CrashConvergence | packages/apple-notes/fulcra_apple_notes/sync.py:255-421 | for a note that settles or is not written: after any kills and deadlines, a pass that reaches its end gives it the section and the stored entry of one uninterrupted pass |
| NoteConverge.ConvergesIff | packages/apple-notes/fulcra_apple_notes/sync.py:319-421 | a note converges over all kills exactly if it settles or is not written: without a file its first rendering holds no fence of its own; with one, its file can be merged into again and again with the same section |
| NoteConverge.NewNoteConvergesIff | packages/apple-notes/fulcra_apple_notes/sync.py:362-383 | for a note whose file is absent: exactly if the rendered note has one ordered fence pair |
| NoteConverge.NeverRecorded | packages/apple-notes/fulcra_apple_notes/sync.py:362-383 | where the first write leaves no fence pair, a kill between it and the save keeps the planned entry from being recorded after whatever kills and passes follow |
| NoteConverge.TwoSections | packages/apple-notes/fulcra_apple_notes/sync.py:362-383 | in the other failing case two uninterrupted passes at different moments already leave different sections |
| NoteConverge.UndecodableIsNeverWritten | packages/apple-notes/fulcra_apple_notes/sync.py:310-317 | an undecodable note's file and entry are untouched after any number of killed passes |
| NoteSweep.SweepTouchesOnlyAbsent | packages/apple-notes/fulcra_apple_notes/sync.py:285-291 | every file the sweep writes belongs to an entry whose uuid the full store read does not have; live entries do not move |
| NoteSweep.MarksIff | packages/apple-notes/fulcra_apple_notes/sync.py:167-186 | a file can be marked exactly if it has a flag line and none that is set |
| NoteSweep.OnlyFlagMoves | packages/apple-notes/fulcra_apple_notes/sync.py:179-181 | setting the flag leaves every other line exactly if its value stands on its own line and no blank line follows |
| NoteSweep.MarkTakesRule | packages/apple-notes/fulcra_apple_notes/sync.py:179-181 | an empty flag takes the closing rule below it for its value, and the frontmatter stays open |
| NoteSweep.MarkedOnce | packages/apple-notes/fulcra_apple_notes/sync.py:167-186 | a file marked as deleted is never marked again |
| NoteSweep.FlagSetIff | packages/apple-notes/fulcra_apple_notes/sync.py:390-401 | after a complete pass the entry of a vanished note is flagged exactly if its file is there with an unset flag line, and then the file is marked |
| NoteSweep.KillLosesFlag | packages/apple-notes/fulcra_apple_notes/sync.py:390-404 | wherever a complete pass marks a vanished note, a kill between that write and the save leaves the file marked and the entry not flagged |
| NoteSweep.LostFlagStaysLost | packages/apple-notes/fulcra_apple_notes/sync.py:167-186 | from there no pass over any store without the note, killed or complete, sets the flag again |
| NoteRemerge.FirstIsStable | packages/apple-notes/fulcra_apple_notes/sync.py:362-370 | a first write can be merged into again, with the same section, exactly if the rendered note holds no fence of its own; else it has no fence pair left |
| NoteRemerge.StableMerges | packages/apple-notes/fulcra_apple_notes/render.py:157-187 | a stable file takes every later rendering of the note, shows the planned section and stays stable |
| NoteRemerge.RemergesIsStable | packages/apple-notes/fulcra_apple_notes/render.py:157-187 | a merge goes into a stable file if the opening tag is on no line of a managed key and the new body ends no frontmatter the time stamp then lands in |
| NoteRemerge.UnstableMerges | packages/apple-notes/fulcra_apple_notes/render.py:157-187 | otherwise the next merge leaves no fence pair, or two moments leave two sections |
| NoteRemerge.TitleLineLosesTag | packages/apple-notes/fulcra_apple_notes/render.py:174-186 | the first case occurs: an opening tag on the title line is lost with the line |
| NoteRemerge.RuleTakesStamp | packages/apple-notes/fulcra_apple_notes/render.py:168-186 | the second occurs: over frontmatter left open, a body that is a rule closes it inside the section |
| NoteRemerge.MergeDecides | packages/apple-notes/fulcra_apple_notes/sync.py:364-374 | over a file whose frontmatter closes before its fence, the merge goes through exactly if the rendered note is fence-free and the metadata editable |
| NoteReconcile.ClassifySound | packages/apple-notes/fulcra_apple_notes/reconcile.py:109-149 | each of the seven statuses stands for exactly one case: which of file, Apple note and entry are missing, and else which side moved against the sync baseline |
| NoteReconcile.LinksFromState | packages/apple-notes/fulcra_apple_notes/sync.py:424-436 | the loop rebuilds links from the recorded media alone |
| NoteReconcile.LinksAgree | packages/apple-notes/fulcra_apple_notes/sync.py:424-436 | the state gives each attachment the link sync gave it exactly if no file-less attachment has a media id the state knows |
| NoteReconcile.SyncThenReconcile | packages/apple-notes/fulcra_apple_notes/sync.py:319-383 | for every note a complete pass wrote and that settles, after any kills: links and section are sync's, and it is classified unchanged exactly if the reader finds the very body in the file, else as edited in the vault |
| NoteReconcile.PlainSyncThenReconcile | packages/apple-notes/fulcra_apple_notes/sync.py:319-383 | told before the sync, with no `<` in the metadata or above the fence: unchanged exactly if the body is not blank and no line of it starts with a closing tag the reader accepts |
| NoteReconcile.OtherSpellingIsEdited | packages/apple-notes/fulcra_apple_notes/reconcile.py:26-30 | with the source's own tags and patterns, a note whose body holds a closing tag without its spaces is classified as edited in the vault |
| ReconcileScan.ReadApple | packages/apple-notes/fulcra_apple_notes/sync.py:525-539 | the Apple loop equals its specification: evidence per note, deadline, undecodable note |
| ReconcileScan.ScanReconcile | packages/apple-notes/fulcra_apple_notes/sync.py:468-577 | one invocation equals its specification: report or error, and every change of the checkpoint file |
| ReconcileScan.SavedIsResumed | packages/apple-notes/fulcra_apple_notes/reconcile_checkpoint.py:46-77 | what an invocation saves, the next one of the same scope loads unchanged |
| ReconcileScan.OtherScopeIsIgnored | packages/apple-notes/fulcra_apple_notes/reconcile_checkpoint.py:55-56 | an invocation with a checkpoint of another scope does what it does without one |
| ReconcileScan.ProgressNeverShrinks | packages/apple-notes/fulcra_apple_notes/sync.py:480-487 | wherever an invocation is killed, saved observations are true and include those before it, unless a complete report cleared them |
| ReconcileScan.CompleteIsOnePass | packages/apple-notes/fulcra_apple_notes/sync.py:444-577 | any sequence of invocations, limits, deadlines and kills that reaches a complete report returns the summary and changes of one unbounded pass |
| ReconcileScan.UnboundedScanCompletes | packages/apple-notes/fulcra_apple_notes/sync.py:541-577 | one unlimited invocation with time enough and readable inputs completes with that result |
| ReconcileReport.CompleteReportMeans | packages/apple-notes/fulcra_apple_notes/sync.py:480-577 | a complete report lists, once each and in order, every note of the state that moved on some side or lost one, with its status, path and title, then every store note the state does not know; it counts each status |
| ReconcileReport.InvocationCounts | packages/apple-notes/fulcra_apple_notes/sync.py:541-563 | an invocation that reaches the vault observes no more new notes than its limit, fetches the files that are there, and saves after every fiftieth |
| ReconcileReport.LimitedScanAdvances | packages/apple-notes/fulcra_apple_notes/sync.py:541-577 | with time enough and readable inputs it observes as many as its limit, or all there are, and is complete exactly in the second case |
| Writeback.PlanWriteback | packages/apple-notes/fulcra_apple_notes/writeback.py:174-200 | the loop splits the changes into allowed and refused, in order |
| Writeback.PlanPartitions | packages/apple-notes/fulcra_apple_notes/writeback.py:174-200 | a change is allowed exactly if it is a vault edit of a note still there without attachments (or overridden); every other is refused |
| Writeback.AllowedInOrder | packages/apple-notes/fulcra_apple_notes/writeback.py:174-200 | the allowed changes are those that may be written, in order, each with the key of the first note of its uuid |
| Writeback.RefusedInOrder | packages/apple-notes/fulcra_apple_notes/writeback.py:174-200 | the refused changes are the others, in order, each for a reason that is the case |
| Writeback.RevalidatedIffJustified | packages/apple-notes/fulcra_apple_notes/collect_plugin.py:293-338 | a step towards WritesAreAuthorized: a body is authorized exactly on the evidence listed: baseline, one ordered literal fence pair, a body the reader finds, same key, attachments, Apple side at the baseline, vault side not |
| Writeback.RefusalIsTrue | packages/apple-notes/fulcra_apple_notes/collect_plugin.py:306-337 | whatever reason a candidate is refused for when its turn comes is the case |
| Writeback.FencelessIsRefused | packages/apple-notes/fulcra_apple_notes/reconcile.py:129-134 | a file without its fence is classified as edited in the vault and still refused |
| Writeback.RunWriteback | packages/apple-notes/fulcra_apple_notes/collect_plugin.py:236-257 | candidates are taken in order, each at the moment the ones before it have left the clock at, until 600 seconds are used up |
| Writeback.WritesAreAuthorized | packages/apple-notes/fulcra_apple_notes/collect_plugin.py:236-257 | every write is authorized by what its own turn read, each candidate at most once; a dry run writes nothing |
| Writeback.AuthorizedIsWritten | packages/apple-notes/fulcra_apple_notes/collect_plugin.py:244-257 | every authorized candidate reached in time is written unless Notes refuses |
| Writeback.CandidatesAddUp | packages/apple-notes/fulcra_apple_notes/collect_plugin.py:236-257 | every candidate whose turn came is written, refused or failed, or due in a dry run: none is lost |
| Writeback.ReplacedBodyIsTheSyncedOne | packages/apple-notes/fulcra_apple_notes/collect_plugin.py:293-338 | for every write of a run: a snapshot taken after the vault text was read, in the turn of that candidate, showed under the planned key exactly the body sync last wrote |
| Writeback.TurnsAreInOrder | packages/apple-notes/fulcra_apple_notes/collect_plugin.py:236-257 | in every run the first turn comes at the start and each other right after the write of the one before; a turn reads the vault, then takes its snapshot |
| ProtoWire.ReadVarint | packages/apple-notes/fulcra_apple_notes/protobuf.py:27-41 | shifting groups in gives the base-128 value, or the truncation or length error |
| ProtoWire.VarintBounds | packages/apple-notes/fulcra_apple_notes/protobuf.py:31-41 | a varint takes at most ten bytes and is below 2^70 |
| ProtoWire.VarintReturns64 | packages/apple-notes/fulcra_apple_notes/protobuf.py:27-41 | every number below 2^64 reads back unchanged from its canonical encoding |
| ProtoWire.IterFields | packages/apple-notes/fulcra_apple_notes/protobuf.py:44-79 | the loop yields the specified fields or error |
| ProtoWire.Parse | packages/apple-notes/fulcra_apple_notes/protobuf.py:82-92 | values are grouped by field number, in order |
| ProtoWire.FieldsRoundTrip | packages/apple-notes/fulcra_apple_notes/protobuf.py:44-79 | reading inverts the canonical encoding of every list of well-formed fields |
| ProtoWire.ParseRoundTrip | packages/apple-notes/fulcra_apple_notes/protobuf.py:82-92 | each number has its values in the order they were written |
| ProtoWire.FieldsConcat | packages/apple-notes/fulcra_apple_notes/protobuf.py:50-79 | decoding a + b is decoding a, then b, errors of b included |
| ProtoWire.ParseConcat | packages/apple-notes/fulcra_apple_notes/protobuf.py:82-92 | parse(a + b) is the per-field concatenation of parse(a) and parse(b) |
| ProtoWire.SuccessConsumesAll | packages/apple-notes/fulcra_apple_notes/protobuf.py:50-79 | a decoded buffer is its fields' bytes one after the other and no more |
| ProtoWire.ChunksDecode | packages/apple-notes/fulcra_apple_notes/protobuf.py:50-79 | and any bytes of that form decode to those fields |
| NoteBody.RunAt | packages/apple-notes/fulcra_apple_notes/body.py:138-145 | the cursor walk finds the run over an offset |
| NoteBody.AttachmentsIn | packages/apple-notes/fulcra_apple_notes/body.py:148-157 | the ids on the runs overlapping a range, in run order |
| NoteBody.ToMarkdown | packages/apple-notes/fulcra_apple_notes/body.py:160-222 | the line loop gives the specified markdown and attachment list |
| NoteBody.PlaceholderIsItsRun | packages/apple-notes/fulcra_apple_notes/body.py:182-197 | under the alignment condition each U+FFFC of a line becomes the token of the run over its own offset |
| NoteBody.MarkdownIsSubstituted | packages/apple-notes/fulcra_apple_notes/body.py:160-222 | and so in the markdown returned: its lines are those of the text with each U+FFFC replaced by the token of the run over it |
| NoteBlocks.BlockMeans | packages/apple-notes/fulcra_apple_notes/body.py:199-220 | each paragraph style has its own block: titles and headings, list items with a dash, a number or a box that shows whether it is checked, code; other text is bare |
| NoteBlocks.WalkAt | packages/apple-notes/fulcra_apple_notes/body.py:166-222 | line i is put out as the block of the run over its start, numbered by how many numbered lines in a row end with it |
| NoteBlocks.FillAt | packages/apple-notes/fulcra_apple_notes/body.py:182-197 | the n-th placeholder of a line becomes the token of its n-th id, or the marker of an attachment without one where the ids give out; every other character stays |
| NoteBody.ReturnedIdsAreAll | packages/apple-notes/fulcra_apple_notes/body.py:169-222 | the returned list is every attachment id, once each, in run order |
| Supervisor.BackoffIsSmall | packages/collect/fulcra_collect/supervisor.py:34-44 | a restart waits 1, 2, 4, 8 or 16 seconds; six exits in the window degrade |
| Supervisor.ServiceSupervisor.Spawn | packages/collect/fulcra_collect/supervisor.py:82-112 | a launch tracks the process, a launch failure is recorded and judged as a crash; no other service moves |
| Supervisor.ServiceSupervisor.TickOne | packages/collect/fulcra_collect/supervisor.py:132-172 | one service's turn: recovery, poll, crash, backoff, launch; no other service moves |
| Supervisor.ServiceSupervisor.Tick | packages/collect/fulcra_collect/supervisor.py:114-172 | every enabled service takes its own turn; tracked services that are disabled are forgotten |
| Supervisor.TurnMeans | packages/collect/fulcra_collect/supervisor.py:132-172 | one turn, field by field: an exit is recorded exactly if a process crashed or a launch failed; a launch is attempted exactly after a clean exit, or with no process and no pending backoff; the sixth recorded exit in sixty seconds degrades, an earlier one sets a backoff of 1, 2, 4, 8 or 16 seconds |
| Supervisor.CrashMeans | packages/collect/fulcra_collect/supervisor.py:149-167 | a healthy process is left alone; a crash leaves the service down with the moment in its record, degraded or waiting |
| Supervisor.SixthExitDegrades | packages/collect/fulcra_collect/supervisor.py:34-44 | over any run of ticks a recorded exit degrades the service exactly if it is the sixth since the last wipe within sixty seconds |
| Supervisor.ServiceSupervisor.ShutdownAll | packages/collect/fulcra_collect/supervisor.py:174-178 | no process is tracked, the record of crashes stays |
| Supervisor.StepKeeps | packages/collect/fulcra_collect/supervisor.py:114-172 | every tick keeps the per-service invariant |
| Supervisor.SupervisionIsSafe | packages/collect/fulcra_collect/supervisor.py:114-172 | over any run of ticks: at most six recorded exits in any closed sixty seconds between wipes, a degraded service has no process and a nonempty record, no backoff beyond sixteen seconds |
| Supervisor.DegradedRecovers | packages/collect/fulcra_collect/supervisor.py:133-142 | a degraded service is launched again exactly at ticks more than five minutes after its last crash |
| DedupClaims.ForwardedEvents.Claim | packages/collect/fulcra_collect/db.py:458-512 | a claim records every key, is new exactly if none was there before, and changes nothing when it fails |
| DedupClaims.ForwardedEvents.Unclaim | packages/collect/fulcra_collect/db.py:515-545 | a release removes exactly its keys, or nothing when it fails |
| DedupClaims.PostedOnce | packages/collect/fulcra_collect/db.py:458-545 | in every interleaving posted events have disjoint keys, and of two that overlap at most one holds a won claim |
| DedupClaims.PostedStays | packages/collect/fulcra_collect/db.py:458-545 | a posted event's keys stay claimed forever, so no later overlapping claim wins |
| DedupClaims.ClaimWinsIff | packages/collect/fulcra_collect/db.py:497-509 | a claim wins exactly if its keys meet neither a holder's nor a key left by a claim that lost |
| DedupClaims.LosingClaimLeavesOrphans | packages/collect/fulcra_collect/db.py:497-509 | a losing claim leaves such keys exactly where it was first |
| DedupClaims.BlockedWithoutPost | packages/collect/fulcra_collect/db.py:497-509 | so an event can be blocked although nothing sharing a key with it was posted |
| Arrivals.Advance | packages/aicq-claude-mod/hooks/wire.ts:267-278 | the loop gives the new messages, the watermark and the last 800 ids |
| Arrivals.Session.Absorb | packages/aicq-claude-mod/hooks/register.tsx:601-637 | one read of one source moves view and ledger as specified and notifies of the new messages in the ledger's window |
| Arrivals.WatermarkGrows | packages/aicq-claude-mod/hooks/register.tsx:622-630 | the watermark never falls back |
| Arrivals.NotifiesOnce | packages/aicq-claude-mod/hooks/register.tsx:574-637 | after the read that records a dated message no complete or incomplete read, nor one from a cleared view, notifies of it again, while fewer than 800 other ids are recorded behind it before the watermark passes its time by more than ten minutes |
| Arrivals.SeenIsEndOfLog | packages/aicq-claude-mod/hooks/register.tsx:616-630 | over reads that name no record twice, the ledger holds exactly the last 800 of the ids it held and all recorded since |
| Arrivals.FoundAgainIff | packages/aicq-claude-mod/hooks/register.tsx:616-636 | over such reads the converse: the next read that returns a recorded dated message finds it new again exactly if 800 ids lie behind it and the watermark has not passed its time by more than ten minutes |
| Arrivals.Session.Widen | packages/aicq-claude-mod/hooks/register.tsx:574-580 | a wider limit clears every view cursor unless nothing was read yet; the ledger stays |
| Arrivals.OneReadNotifiesOnce | packages/aicq-claude-mod/hooks/register.tsx:622-636 | one read notifies of a message at most once |
| Arrivals.ArrivedIsNew | packages/aicq-claude-mod/hooks/register.tsx:616-636 | only an inbound message new to a ledger that was read before, not older than its window, notifies |
| Arrivals.ArrivedIff | packages/aicq-claude-mod/hooks/register.tsx:616-636 | exactly what a read notifies of: on a source read before, of each id the ledger does not hold the first message in its window, if that is inbound and not past the ignore limit, in order |
| Arrivals.FreshAreFirsts | packages/aicq-claude-mod/hooks/wire.ts:267-278 | what is new in a batch is, of each unseen id, the first message, in order |
| Arrivals.CursorsAfter | packages/aicq-claude-mod/hooks/register.tsx:601-630 | a complete read moves each watermark to the latest date it found new, or for a first read of nothing to now; an incomplete one leaves it |
| Arrivals.UnreadableIsKept | packages/aicq-claude-mod/hooks/register.tsx:622-626 | an unreadable record is remembered exactly if the ledger does not hold it yet |
| WakeBudget.Budget.OnArrival | packages/aicq-claude-mod/hooks/register.tsx:680-689 | the loop spends each collaboration's budget in order |
| WakeBudget.BudgetsAreApart | packages/aicq-claude-mod/hooks/register.tsx:680-689 | a collaboration's history moves by its own messages alone |
| WakeBudget.BudgetHolds | packages/aicq-claude-mod/hooks/policy.ts:34-39 | over every run of batches of messages of any collaborations, no hour, its end excluded, holds more than four wakes of one |
| WakeBudget.RefusedIffFourRecent | packages/aicq-claude-mod/hooks/policy.ts:37-39 | a wake is refused exactly when four wakes lie less than an hour back |
| WakeBudget.ClosedHourIff | packages/aicq-claude-mod/hooks/policy.ts:37-39 | an hour that includes both ends holds n > 4 wakes exactly if n wakes in a row span it, the first at its start and the last at its end |
| WakeBudget.ClosedHourOfRun | packages/aicq-claude-mod/hooks/policy.ts:37-39 | so it is in every run of batches, and it never holds more than eight |
| WakeBudget.ClosedHourHoldsEight | packages/aicq-claude-mod/hooks/policy.ts:37-39 | eight it can hold: four wakes at each end |
| MessageCodec.SplitMarkers | packages/aicq-claude-mod/hooks/wire.ts:133-148 | the loop takes at most two markers off |
| MessageCodec.MarkersRoundTrip | packages/aicq-claude-mod/hooks/wire.ts:133-152 | splitting what was joined gives body, state and purpose back exactly for a clean body |
| MessageCodec.DeliveredIffAddressed | packages/aicq-claude-mod/hooks/wire.ts:242-253 | a written message, whatever its topic, is parsed by exactly the readers it is addressed to |
| MessageCodec.EncodeRoundTrip | packages/aicq-claude-mod/hooks/wire.ts:154-332 | on all three wires the id comes back; the kind exactly if the topic ends in neither -ack nor -retracted, or the message is an ack on mesh or with a topic ending in -ack; state, purpose and carried body exactly if that body is clean |
| MessageCodec.BodyRoundTrip | packages/aicq-claude-mod/hooks/wire.ts:328-331 | the body itself comes back exactly if mesh carries no file list |
| MessageReading.EnvelopeIsRead | packages/aicq-claude-mod/hooks/wire.ts:209-262 | of any row with a v1 or workspace envelope: who reads it, why the others do not, and the id, kind, topic, body, time, recipients, direction and partner they read |
| MessageReading.MeshIsRead | packages/aicq-claude-mod/hooks/wire.ts:228-262 | the same for any mesh message |
| MessageReading.NothingIsRead | packages/aicq-claude-mod/hooks/wire.ts:236-239 | any other row is malformed |
| MessageReading.EndsWithIff | packages/aicq-claude-mod/hooks/wire.ts:154-156 | a topic ends in a suffix exactly if it is something followed by it |
| MessageReading.RowHasIff | packages/aicq-claude-mod/hooks/wire.ts:339-353 | of any row: the check finds an id in its v1 envelope or its data object's, in its coordination, and in its mesh message under the topic less an ack's suffix |
| MessageReading.EncodeComesBack | packages/aicq-claude-mod/hooks/wire.ts:154-332 | of a written message the time, the recipient and, but for mesh, the message it answers come back; the reader takes it for its own exactly if it bears its name |
| MessageReading.StateIsTaken | packages/aicq-claude-mod/hooks/wire.ts:140-145 | a state value normalises to a name exactly if, trimmed, it spells it: letters in either case, a run of underscores and white space for a dash |
| MessageCodec.ReadbackHas | packages/aicq-claude-mod/hooks/wire.ts:339-353 | whether some row carries the id, and the topic if given |
| MessageCodec.ReadbackIsExact | packages/aicq-claude-mod/hooks/wire.ts:339-353 | a written message reads back under its own id and one topic and no other: its own topic, less a suffix -ack for a mesh message or reply |
| MessageCodec.OwnReadbackIff | packages/aicq-claude-mod/hooks/register.tsx:745-755 | so the check after sending fails exactly for a mesh message or reply whose topic ends in -ack |

## Left out

- Transport failures during `run_sync` (upload, read and write errors, unreadable local files apart from being skipped), its counters, error list, dry run, index note and time stamps in the state file.
- `resolve_attachments`, `content_hash`, `note_filename`, `attachment_path` and the gzip and UTF-8 layers: parameters or not part of this model; the prose of notices is supplied from outside.
- The dictionary of frontmatter fields `parse_vault_note` returns, beyond what one field reads back as: nothing here uses it.
- The order of the deletion sweep is passed in; the results on flags ask that it lists the entry.
- Line separators other than `\n` in the merge itself (`NoteRender.FieldIsOneLine` says which values are free of them), and letters in `toLowerCase` that stay beyond ASCII.
- The order and time of dictionary iteration beyond what is passed in; `sorted` over services is any order, since services do not touch each other.
- Comments and custom tables in the TOML document, the location text of conflicts, a web port that is not a number, and Python's equality of `1` and `True`.
- Supply of uuids: a counter stands for `uuid4`. `current_selection` without an epoch, which skips the comparison, is not what a run calls and is not modelled.
- Lease timeouts and polling intervals appear as a step that gives up; fairness between lock waiters is not modelled.
- What `fulcra_task_sync.engine` does inside its lease beyond one final check and one external write.
- The guards of `_run_writeback` before anything is planned (enabled, complete scan, consent).
- `by_day` and `by_version` counters of the plan, HTTP fetching and the delete transports.
- A journal line cut in the middle by a kill: a line is written whole or not at all.
- Supervisor processes beyond alive, clean exit and crash; terminating a process; the observer called on launch errors.
- AppleScript, HTML conversion and the report file of writeback; an Apple edit made after the last snapshot of a candidate and before its write is not seen by the code either.
- Message artifacts as structured references; the mesh file list is one text. Presence and malformed rows are classified, their counts are not kept.
- The inbox view, toasts, ownership lookup and prompts around arrivals: they enter as which collaborations may be woken; date texts are numbers.
- The definition-validation gate, freshness verdicts, ring buffers, favourites and other easy members: they would add no hard property.
