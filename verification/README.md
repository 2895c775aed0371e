# Verification of EverWeb's crash safety

EverWeb is a Python harness for browser agents. This project models the four parts of it that have to stay
right when a worker is killed, a write is torn, or a call raises, and proves what they promise.

**The immutable artifact store.** An artifact is put by reserving its id with a `.pending` record, writing and
checking a temporary file, publishing that by hard link, and renaming the record to `.json`. An error runs a
rollback; a kill is repaired by a recovery that runs at every open and every put.

- `StoreState.dfy`: what is on disk, what recovery makes of it (`Settle`), when it can (`Sound`), and the stages
  of a put.
- `FileSystem.dfy`: the file operations. Each may raise; every disk that another process could find is recorded;
  ghost state follows what has been synced.
- `ArtifactStore.dfy`: the methods of the store, step by step, against those specifications.
- `ArtifactRuns.dfy`: whole histories of one directory: any number of stores, killed anywhere.

**The append-only logs and the emergency emitter.** Trace and evidence are files of canonical JSON lines, read
back by readers that forgive an unfinished last line only. When a worker has died, the emitter turns what
survived into a draft, a report and a receipt.

- `Framing.dfy`: lines, cuts and what a bounded reader makes of them. `Decimal.dfy`, `CanonicalJson.dfy`: the
  bytes written for a value. `JsonReader.dfy`: a reader of JSON of its own, which says what those bytes mean.
- `JsonHeap.dfy`: the cycle detector that guards what enters the logs.
- `TraceLog.dfy`, `EvidenceLog.dfy`: the two writers and the two readers.
- `EmergencyEmitter.dfy`: one emit, and histories of emits.

**The worker pool.** `Heartbeat.dfy` and `WorkerPool.dfy`: exclusive execution, task and CDP leases over processes
that may end, hang or refuse to die at any time, and the monitor that has to stay in step with them.

**From perceiving to acting.** `Targets.dfy`, `AxSnapshot.dfy`, `DomExtract.dfy`, `PageView.dfy` and `Locator.dfy`:
numbering the targets of a page, merging them, and resolving an `epoch:id` reference back.

How the model stands for the code:

- A call that raises returns `Err`, or `false`, or `None`; the `finally` and `except` blocks are written out. A step that
  may go either way is a nondeterministic choice, so every theorem holds for all of its outcomes.
- A kill leaves the state that the file operations so far have made visible. `AnyHistory` and `AnyEmits` pick that state
  from everything that was shown and let other processes go on from there.
- SHA-256, the JSON and model validators, the sensitive-text check and the status mapper are arbitrary functions. Where
  a validator has to invert the encoder, a lemma says so in its precondition (`Faithful`, `FaithfulEvidence`, `Lawful`).
  The encoder of the logs is any function that writes no LF, and `CanonicalEncoder` proves that canonical JSON is one; the
  theorems about what a line says ask of it that it can be read (`Legible`), and `CanonicalIsLegible` proves that too.
- Every operation on the files of the store and of the emitter may raise, and so may every step of starting a worker;
  ghost state logs or counts those that do, and "exactly if nothing raised" is said of that.
- Four promises hold only under a condition, which is proved to be exact. Recovery can succeed if and only if no pending
  record is torn, no committed record has lost its artifact, and no unpublished artifact has had its path made a directory
  (`RecoverableExactly`); `KilledWhileReserving`, `KilledWhileRollingBack` and `KilledBeforeNesting` run into all three. A
  failed put is undone, but for directories, if and only if what raised in it was all made good and no directory it made
  blocks a record (`UndoneExactly`, `Put`); one misbehaving operation always is made good, two may not be
  (`FewRaisesAreMadeGood`, `TwoRaisesMayStick`). A worker that has ended is finalized unless its queue hands out a
  message that cannot be read (`FinalizeSlot`). A normalized value exists if and only if the value is a finite tree
  (`NormalizeJson`).

`dafny verify dfyconfig.toml` checks everything.

## Model

| member | source | states |
|---|---|---|
| `ArtifactRuns.RecoverableExactly` | src/everweb/adapters/filesystem/artifact_store.py:326-344 | After any history of opens and puts by any number of stores, with any operations raising and kills anywhere, the next recovery can succeed if and only if no pending record is torn, no committed record has lost its artifact, and no artifact that was never published has had its path made a directory; the second kind of damage needs an operation that raised. |
| `ArtifactRuns.OnlyNestedPathsBlock` | src/everweb/adapters/filesystem/artifact_store.py:214-218 | The third kind of damage needs two requests, one for a path below the path of the other. |
| `ArtifactRuns.OnlyIntegrityIsReported` | src/everweb/adapters/filesystem/artifact_store.py:326-344 | After any history, whatever raised and wherever it was killed, the only fault recovery can report of an identity file is an integrity error: never a conflict, and never a path that is not allowed. |
| `ArtifactRuns.KillAnywhere` | src/everweb/adapters/filesystem/artifact_store.py:217-260 | With nothing raised, no pending record caught half written, and no path requested below another, every reachable state can be recovered; recovery leaves no pending record and is idempotent, and the interrupted put is either wholly there, with the bytes put, or not there at all, not even as a file. |
| `ArtifactRuns.TurnIsAtomic` | src/everweb/adapters/filesystem/artifact_store.py:410-420 | Seen through recovery, one turn at the lock, with any operations raising, either changes no file or adds exactly one record and one artifact, unless it left a record without its artifact; a put that returned did the second. |
| `ArtifactRuns.Permanence` | src/everweb/adapters/filesystem/artifact_store.py:528-571 | Once a put has returned, its reference reads back the bytes put in every later state of every history, whatever raises, is rolled back, is recovered or is killed. |
| `ArtifactRuns.ReturnedPutsAreDistinct` | src/everweb/adapters/filesystem/artifact_store.py:218-222 | Of all the puts of a history that returned, no two have the same id or the same path. |
| `ArtifactRuns.AnyHistory` | src/everweb/adapters/filesystem/artifact_store.py:210-280 | What any number of stores really do to a directory, taking turns in any order, making directories before they have the lock, and each possibly killed after any file operation, is one of the histories the lemmas are about; its returned puts are exactly those whose live callers got a reference, each for its own request. |
| `ArtifactRuns.AnyPuts` | src/everweb/adapters/filesystem/artifact_store.py:217-280 | So of all the real puts of such a run: every reference a caller ever got can be read at the end and holds the bytes put, and no two of them share an id or a path. |
| `ArtifactRuns.TakeTurn` | src/everweb/adapters/filesystem/artifact_store.py:210-280 | One recovery, put or making of directories leaves, and on the way shows other processes, only disks that its turn of a history allows; the turn is the one of the request, and a returned put exactly if the put returned. |
| `ArtifactRuns.TakeTurnOrDie` | src/everweb/adapters/filesystem/artifact_store.py:217-280 | The same when the process may die after any file operation, in which case nobody gets its result; the caches of the surviving stores stay within what is on disk. |
| `ArtifactRuns.RacePuts` | src/everweb/adapters/filesystem/artifact_store.py:217-223 | Two stores of one directory, each with its own cache: if both puts return, their ids and paths differ, and the first reference is still readable after the second put. |
| `ArtifactRuns.KilledWhileReserving` | src/everweb/adapters/filesystem/artifact_store.py:303-308 | A put that would have returned, killed between creating and filling its pending record, leaves a directory that the next opening refuses: every put opens that window. |
| `ArtifactRuns.KilledWhileRollingBack` | src/everweb/adapters/filesystem/artifact_store.py:261-276 | A put that fails after its commit, unless unlinking its artifact raised, goes through a moment at which a kill leaves a directory that the next opening refuses. |
| `ArtifactRuns.KilledBeforeNesting` | src/everweb/adapters/filesystem/artifact_store.py:210-218 | A put that would have returned, killed with its pending record whole, and then a put to a path below: with nothing raised at all, the second put fails, and so does every opening from then on. |
| `ArtifactRuns.ReopenAfterFailure` | src/everweb/adapters/filesystem/artifact_store.py:261-280 | After a failed put, an opening that succeeds finds the files that were there before exactly if what the put raised was all made good; one that fails, on a directory that could be opened before the put, has found one of the three kinds of damage, or some operation raised. |
| `ArtifactRuns.TornReservationBricks` | src/everweb/adapters/filesystem/artifact_store.py:427-442 | The same window as a shortest history: one stopped put, nothing raised, and recovery cannot succeed. |
| `ArtifactRuns.OrphanedRecordBricks` | src/everweb/adapters/filesystem/artifact_store.py:261-276 | A shortest history that ends with a committed record without its artifact, on which recovery cannot succeed. |
| `ArtifactRuns.NestedPathBricks` | src/everweb/adapters/filesystem/artifact_store.py:491-505 | A shortest history of the third kind: two stopped puts, nothing raised, no record torn, no artifact lost, and recovery cannot succeed. |
| `ArtifactRuns.StageDamage` | src/everweb/adapters/filesystem/artifact_store.py:224-280 | Which kinds of damage each stage of a put leaves. |
| `ArtifactRuns.TurnKeeps` | src/everweb/adapters/filesystem/artifact_store.py:210-280 | No turn removes or changes a committed record or a published artifact. |
| `ArtifactRuns.StaysATree` | src/everweb/adapters/filesystem/artifact_store.py:491-505 | In every history, artifacts stand in directories that are there, and no path is an artifact and a directory at once. |
| `StoreState.InterruptedRecoveryConverges` | src/everweb/adapters/filesystem/artifact_store.py:326-344 | A recovery stopped anywhere and begun again reaches the same disk as an uninterrupted one, and can succeed exactly when that one could. |
| `StoreState.SettleTwice` | src/everweb/adapters/filesystem/artifact_store.py:326-344 | Recovering twice is recovering once, and what recovery leaves can be recovered. |
| `StoreState.StageSettles` | src/everweb/adapters/filesystem/artifact_store.py:410-420 | Recovery takes a put stopped at any stage back to before it or forward to after it, and cannot succeed exactly at the two damaged stages. |
| `StoreState.UndoneExactly` | src/everweb/adapters/filesystem/artifact_store.py:261-276 | A failed put is undone, at once or by the next recovery, if and only if what raised in it, in order, was all made good: no unlink of the artifact or of the committed record; no sync beside the artifact after a sync that failed the commit; no unlink of the pending record after a write that tore it. |
| `StoreState.MadeGoodExactly` | src/everweb/adapters/filesystem/artifact_store.py:261-276 | That condition on what raised decides which stage is left. |
| `StoreState.FewRaisesAreMadeGood` | src/everweb/adapters/filesystem/artifact_store.py:261-280 | One misbehaving operation is always made good, and so is any number of failing syncs beside the artifact. |
| `StoreState.TwoRaisesMayStick` | src/everweb/adapters/filesystem/artifact_store.py:261-276 | Two raises in one put are enough to miss that, in four ways: an unlink after a failed write leaves the pending record torn; an unlink that leaves the artifact after a failed commit lets the next recovery commit the put that failed; after the sync of the commit, a sync of the removal of the artifact, or an unlink of the record, leaves the record without its artifact. |
| `StoreState.FailedPut` | src/everweb/adapters/filesystem/artifact_store.py:217-280 | The same for the disk on which the put took the lock, whatever its recovery had to settle. |
| `StoreState.FailedOnReady` | src/everweb/adapters/filesystem/artifact_store.py:210-280 | The same for the disk before it made its directories; and what such a put has left blocks no record. |
| `StoreState.StoppedOnReady` | src/everweb/adapters/filesystem/artifact_store.py:210-218 | A put that gets no further than its recovery changes what recovery makes of no file, and keeps it from succeeding only by a directory that blocks a record. |
| `StoreState.ReadySettles` | src/everweb/adapters/filesystem/artifact_store.py:491-505 | Making directories changes what recovery makes of no file, and stops it exactly if a directory blocks a record. |
| `StoreState.InterruptionKeeps` | src/everweb/adapters/filesystem/artifact_store.py:217-280 | No disk that a put or a recovery shows lacks a committed record or an artifact that was there before. |
| `StoreState.PutShowsKeeps` | src/everweb/adapters/filesystem/artifact_store.py:210-280 | The same from the making of directories on. |
| `ArtifactStore.Store.Put` | src/everweb/adapters/filesystem/artifact_store.py:183-282 | One whole put. What its caller gets, always: an invalid or a sensitive request is refused as that, and touches nothing; an acceptable one gets a reference with its own id, kind, path, digest and size, or a conflict if recovery completed and id or path is taken, or what recovery reports of a faulty identity file, or an integrity error if bytes came back wrong and nothing but a sync after a removal raised, or an I/O error if something else raised or a file stands where a directory has to be. What it does: a put that returns leaves exactly the settled disk plus its directories, its record and its artifact, the last two synced, and commits no record before its artifact is safe; without trouble it returns exactly when no file stands where a directory has to be, the disk with its directories is sound, and id and path are free; a put that fails is undone exactly if what raised was all made good and no directory it made blocks a record, and what it left accounts for every operation that raised; its cache equals the committed ids; everything shown on the way is what a history allows. |
| `ArtifactStore.Store.PutValid` | src/everweb/adapters/filesystem/artifact_store.py:214-282 | The same for a request that passed validation. |
| `ArtifactStore.Store.PutLocked` | src/everweb/adapters/filesystem/artifact_store.py:217-280 | The same for the part under the lock, from the disk it finds there. |
| `ArtifactStore.Store.PlaceIfFree` | src/everweb/adapters/filesystem/artifact_store.py:219-280 | A taken id or path is a conflict and leaves everything as it is; otherwise the rest of the put, with its error. |
| `ArtifactStore.Store.Prepare` | src/everweb/adapters/filesystem/artifact_store.py:491-505 | All directories above the path are made, one at a time, exactly if none of their names is a file and nothing raises; no file changes. |
| `ArtifactStore.Store.Place` | src/everweb/adapters/filesystem/artifact_store.py:224-280 | Reservation to commit: the exact sequence of disks shown on success; a failure is accounted for by the operations that raised, in order, and the stage left. |
| `ArtifactStore.Store.Carry` | src/everweb/adapters/filesystem/artifact_store.py:227-280 | The same for everything after the reservation, with rollback and removal of the temporary file; what raises in these takes the place of the error that began them. |
| `ArtifactStore.Store.Attempt` | src/everweb/adapters/filesystem/artifact_store.py:227-260 | The body of the try: how far it got is what the disk shows, and it fails exactly if some operation misbehaved, which is one that can fail it there. |
| `ArtifactStore.Store.Undo` | src/everweb/adapters/filesystem/artifact_store.py:261-280 | The except and the finally: what they raised, in order, and the stage they leave. |
| `ArtifactStore.Store.WriteTemporary` | src/everweb/adapters/filesystem/artifact_store.py:228-243 | The temporary file holds the synced content put, or an operation misbehaved; nothing else changed. |
| `ArtifactStore.Store.Publish` | src/everweb/adapters/filesystem/artifact_store.py:246-260 | Hard link, removal of the temporary name, directory sync, commit: the artifact is durable before its record is committed. |
| `ArtifactStore.Store.Rollback` | src/everweb/adapters/filesystem/artifact_store.py:261-276 | What each of its removals raised decides the stage that is left; the put is undone if and only if what raised was all made good; a committed put passes through a record without its artifact, for others to see. |
| `ArtifactStore.Store.Reserve` | src/everweb/adapters/filesystem/artifact_store.py:290-313 | The id is reserved, with its record synced, exactly if nothing raised; otherwise what raised, in order, decides what is left of the pending record. |
| `ArtifactStore.Store.WriteReservation` | src/everweb/adapters/filesystem/artifact_store.py:303-308 | The stages of creating, filling and syncing the pending record. |
| `ArtifactStore.Store.CommitArtifactId` | src/everweb/adapters/filesystem/artifact_store.py:315-324 | The record moves from pending to committed in one step or not at all; an existing record is never overwritten. |
| `ArtifactStore.Store.RemoveDurably` | src/everweb/adapters/filesystem/artifact_store.py:507-515 | What was removed, whether that is durable, and exactly what raised: a failing sync of the directory is logged and not passed on. |
| `ArtifactStore.Store.Recover` | src/everweb/adapters/filesystem/artifact_store.py:326-344 | In whatever order the records are listed: succeeds without faults exactly on sound disks, then leaves the settled disk and a cache equal to the committed ids; stopped anywhere, it has shown only disks on the way there; its error is an I/O error exactly if something raised, and otherwise that of an identity file which is really at fault. |
| `ArtifactStore.Store.RecoverEntry` | src/everweb/adapters/filesystem/artifact_store.py:326-344 | One turn of the loop of recovery: one more record is checked, and only a sound one is acted on. |
| `ArtifactStore.Store.RecoverPending` | src/everweb/adapters/filesystem/artifact_store.py:410-420 | A pending record is dropped when nothing is at its path, committed when its artifact is there and intact, and refused otherwise, also when there is a directory. |
| `ArtifactStore.Store.RecoverCommitted` | src/everweb/adapters/filesystem/artifact_store.py:337-340 | A committed record is accepted exactly when its artifact is there and intact. |
| `ArtifactStore.Store.VerifyRecorded` | src/everweb/adapters/filesystem/artifact_store.py:462-489 | Size, limit and digest of a recorded artifact are all checked; a directory in its place is refused, and reading it may raise. |
| `ArtifactStore.Store.Read` | src/everweb/adapters/filesystem/artifact_store.py:528-571 | Returns bytes exactly when reference, record, size, limit and digest all agree, and then the bytes at that path; it changes nothing. Without a raise, an empty id, or a recorded path that is not allowed, is reported as invalid, and everything else as an integrity error. |
| `ArtifactStore.ErrorTold` | src/everweb/adapters/filesystem/artifact_store.py:261-280 | What raised in a put that got past its conflict checks, and whether its bytes came back wrong, decides the error its caller gets. |
| `ArtifactStore.PendingFault` | src/everweb/adapters/filesystem/artifact_store.py:410-443 | A pending record has no fault exactly if recovery can deal with it. |
| `ArtifactStore.CommittedFault` | src/everweb/adapters/filesystem/artifact_store.py:337-340 | A committed record has no fault exactly if it is complete and its artifact is there and intact. |
| `FileSystem.Volume.Link` | src/everweb/adapters/filesystem/artifact_store.py:246-252 | Publishing by hard link is one step and never overwrites. |
| `FileSystem.Volume.MakeDirectory` | src/everweb/adapters/filesystem/artifact_store.py:493-495 | A directory is made in one step; one that is there already is no error, a file is. |
| `FileSystem.Volume.RenameMarker` | src/everweb/adapters/filesystem/artifact_store.py:323-324 | The commit is one step; it records whether the artifact was durable at that point. |
| `FileSystem.Volume.WriteMarker` | src/everweb/adapters/filesystem/artifact_store.py:304-307 | A pending record becomes readable only when it has been written completely. |
| `Framing.FramingUnique` | src/everweb/report/trace_writer.py:126-141 | A file can be split into LF-ended lines and an unfinished tail in one way only. |
| `Framing.FramingExists` | src/everweb/report/trace_writer.py:126-141 | Every sequence of bytes can be split so. |
| `Framing.CutFraming` | src/everweb/report/trace_writer.py:133-141 | A file of whole lines cut at any byte is the lines that end by then and the rest of the next one. |
| `Framing.SurvivesIffEnded` | src/everweb/report/trace_writer.py:133-141 | A line survives a cut if and only if the cut is at or after its end. |
| `Framing.CutReadsAs` | src/everweb/report/trace_writer.py:116-175 | A cut of a file of acceptable lines is readable as those of its lines that survived. |
| `Framing.CorruptIsUnreadable` | src/everweb/report/trace_writer.py:116-175 | The two outcomes of a reader, a recovered prefix and a corruption, exclude each other. |
| `Framing.CorruptAtFirst` | src/everweb/report/trace_writer.py:126-165 | A reader that meets a corruption has stopped at the first line that is not acceptable. |
| `Framing.InputFile.Readline` | src/everweb/report/trace_writer.py:126 | Up to the next LF, the limit or the end of the file, whichever comes first. |
| `Framing.AppendFile.Flush` | src/everweb/report/trace_writer.py:246-250 | After a flush that returned, all bytes written so far count as flushed. |
| `Framing.AppendFile.Close` | src/everweb/report/trace_writer.py:254-259 | A close that raises leaves the file closed all the same; a second one does nothing. |
| `CanonicalJson.NoControlBytes` | src/everweb/report/_persistence.py:15-27 | Whatever a JSON value holds, its canonical bytes contain no byte below 0x20, so LF only ever ends a record (section 7 of RFC 8259). |
| `CanonicalJson.CanonicalEncoder` | src/everweb/report/_persistence.py:15-27 | So canonical JSON is among the encoders that the theorems about the logs allow; what it writes is read back by `JsonReader`. |
| `CanonicalJson.MemberOrderIsIrrelevant` | src/everweb/report/_persistence.py:19-25 | Two objects with the same members in any order are written as the same bytes. |
| `CanonicalJson.BeforeIsCodePointOrder` | src/everweb/report/_persistence.py:24 | The order the members are written in is that of code points: up to some position two keys agree, and there the first ends or has the smaller one. |
| `JsonReader.CanonicalReads` | src/everweb/report/_persistence.py:15-27 | The bytes written for any JSON value denote it: a reader of RFC 3629 and RFC 8259, defined on its own, takes all of them and yields the value with the members of every object in code point order. |
| `JsonReader.TextReadsBack` | src/everweb/report/_persistence.py:19-25 | The same for the text before it is encoded, with anything that may follow a value behind it: literals, numbers, strings with their escapes, arrays and objects. |
| `JsonReader.DecodeBack` | src/everweb/report/_persistence.py:25 | Decoding UTF-8 inverts its encoding, for every string of Unicode scalar values. |
| `JsonReader.SortMembersOrders` | src/everweb/report/_persistence.py:24 | The members of an object end up in code point order of their keys. |
| `JsonReader.CanonicalIsLegible` | src/everweb/report/_persistence.py:15-27 | So canonical JSON is an encoder that can be read, as the theorems about tampering ask. |
| `JsonHeap.NormalizeJson` | src/everweb/report/_persistence.py:30-72 | On every finite heap of mutable containers, shared or cyclic, it terminates; it succeeds exactly on values that unfold to a finite JSON value, equivalently when nothing bad and no cycle is reachable; the copy is that value in fresh containers only; the error names an obstacle that is really there. |
| `JsonHeap.CycleIsRefused` | src/everweb/report/_persistence.py:45-48 | A list holding a dictionary holding the list, actually built, is refused as a cycle. |
| `JsonHeap.Normalize` | src/everweb/report/_persistence.py:30-72 | One call of the walk: the active set is the same afterwards, whether it returns or raises. |
| `JsonHeap.Leave` | src/everweb/report/_persistence.py:52-53 | The finally of a container: it leaves the active set, and neither the copy made nor the obstacle met is disturbed. |
| `JsonHeap.NormalizeList` | src/everweb/report/_persistence.py:45-53 | A list is copied with the active set restored on both ways out. |
| `JsonHeap.NormalizeItems` | src/everweb/report/_persistence.py:51 | The items are copied in order, into containers made for this walk. |
| `JsonHeap.NormalizeDict` | src/everweb/report/_persistence.py:55-68 | A dictionary is copied with the active set restored on both ways out. |
| `JsonHeap.NormalizeEntries` | src/everweb/report/_persistence.py:61-66 | Keys are kept, in order, and must be strings. |
| `JsonHeap.UnfoldingUnique` | src/everweb/report/_persistence.py:30-72 | A value unfolds to at most one JSON value. |
| `JsonHeap.LoopHasNoTree` | src/everweb/report/_persistence.py:47-48 | A container that can be reached from itself unfolds to nothing finite. |
| `JsonHeap.ObstacleMeansNoTree` | src/everweb/report/_persistence.py:45-72 | A bad leaf, a key that is no string, or a cycle anywhere below a value leaves it without JSON content. |
| `TraceLog.ReadTrace` | src/everweb/report/trace_writer.py:116-175 | Returns one checked event for each whole line, and one warning for a tail; otherwise it names the first bad line, its number and what is wrong with it; the incomplete non-final error never occurs. |
| `TraceLog.NextEvent` | src/everweb/report/trace_writer.py:126-165 | One turn of the loop: a good event, the end, or the first bad line. |
| `TraceLog.CheckEvent` | src/everweb/report/trace_writer.py:143-165 | A line is accepted exactly when it parses with the expected number and its own checksum. |
| `TraceLog.TornTail` | src/everweb/report/trace_writer.py:116-175 | For every log and every byte at which it is cut, the reader returns exactly the events whose whole line survived, and a warning counting the remaining bytes if and only if the cut is inside a line. |
| `TraceLog.CutIsNotCorrupt` | src/everweb/report/trace_writer.py:126-165 | No cut of a log reads as corruption, with the limit of its writer. |
| `TraceLog.ReadAfterKill` | src/everweb/report/trace_writer.py:116-175 | Both of the last two for what a writer really wrote and the reader really returns; a cut that keeps the flushed bytes keeps every event that was safe. |
| `TraceLog.ReaderSoundness` | src/everweb/report/trace_writer.py:122-175 | On arbitrary bytes: event i has number i + 1 and its own checksum, accepted lines and discarded bytes add up to the file, and there is at most one warning. |
| `TraceLog.ReadForged` | src/everweb/report/trace_writer.py:143-165 | Tamper evidence: if the line of one event of a log is replaced by a line with the same checksum, and its number, schema version, execution, type, payload or timestamp is changed, the reader reports that line, by its number, with an unexpected number or a checksum mismatch; or the digest collides on the two byte strings that were signed. |
| `TraceLog.ChecksumCovers` | src/everweb/report/trace_writer.py:97-104 | Two events can have the same checksum only if all six fields under it agree, or the digest collides on what was signed. |
| `TraceLog.LineSays` | src/everweb/report/trace_writer.py:107-113 | Read as JSON, a line is an object with each of the seven fields of its event, by name. |
| `TraceLog.CanonicalIsFaithful` | src/everweb/report/trace_writer.py:97-113 | Canonical JSON with the reader of RFC 8259 meets every condition on a codec. |
| `TraceLog.FlushedEventsSurvive` | src/everweb/report/trace_writer.py:243-250 | Events whose lines end by the cut are among those recovered. |
| `TraceLog.LineIsFramed` | src/everweb/report/trace_writer.py:107-113 | Every encoded event is one line. |
| `TraceLog.TraceWriter.Append` | src/everweb/report/trace_writer.py:208-252 | Any value, in a heap that may be shared or cyclic: it is written exactly if it has strict JSON content, an object, whose signed and numbered line fits; a refused one writes nothing, uses no number, and says why; after FLUSH or FSYNC returned every event so far is safe; the event returned has the next number, the writer's schema version and execution, and the type, content and timestamp given. |
| `TraceLog.TraceWriter.Close` | src/everweb/report/trace_writer.py:254-259 | Closing writes no event; one that raises has closed the file while the writer takes itself for open, and the next one succeeds. |
| `EvidenceLog.ReadEvidence` | src/everweb/report/evidence_writer.py:103-168 | Returns one checked atom for each whole line, and one warning for a tail; otherwise it names the first bad record, its number and what is wrong with it. |
| `EvidenceLog.NextAtom` | src/everweb/report/evidence_writer.py:120-158 | One turn of the loop: a good atom, the end, or the first bad record. |
| `EvidenceLog.CheckAtom` | src/everweb/report/evidence_writer.py:136-158 | A record is accepted exactly when it is not sensitive, strict, of this execution, and new. |
| `EvidenceLog.AcceptedIsConsistent` | src/everweb/report/evidence_writer.py:149-158 | Whatever the bytes, accepted atoms have pairwise distinct ids and one execution, and every byte is accounted for. |
| `EvidenceLog.LedgerPrefix` | src/everweb/report/evidence_writer.py:103-168 | Re-reading any byte prefix of a ledger is no corruption and gives exactly the atoms whose record survived. |
| `EvidenceLog.ReadLedgerAfterKill` | src/everweb/report/evidence_writer.py:103-168 | The same for what a writer really wrote and the reader really returns. |
| `EvidenceLog.RecordIsFramed` | src/everweb/report/evidence_writer.py:85-100 | Every encoded atom is one line. |
| `EvidenceLog.RecordSays` | src/everweb/report/evidence_writer.py:85-100 | Read as JSON, a record is an object with the ids, the raw and the normalized value, and the other fields of its atom, by name. |
| `EvidenceLog.EvidenceWriter.Append` | src/everweb/report/evidence_writer.py:202-235 | The file is always the records of the accepted atoms and the id set their ids; a refused atom writes nothing, reserves no id, and says why. |
| `EvidenceLog.EvidenceWriter.Close` | src/everweb/report/evidence_writer.py:237-240 | Closing writes no atom; one that raises has closed the file while the writer takes itself for open. |
| `EmergencyEmitter.Emit` | src/everweb/supervisor/emergency_emitter.py:208-302 | With a receipt on disk, in any directory: writes nothing, and returns it marked idempotent exactly if it is intact and nothing raised. Without: returns a receipt exactly if what survived allows an emit and nothing raised, having written draft, report and receipt in that order; says why not otherwise; what a kill leaves is a prefix of these writes. The validators make of the three files a draft that holds the last URL if there is one, the best candidate and then the last screenshot, each once, and nothing else; a report with the four counts of what was recovered; and the receipt, with the digest and size of the draft. |
| `EmergencyEmitter.EmitTwice` | src/everweb/supervisor/emergency_emitter.py:208-214 | With nothing raised, a second emit, whatever has changed since, writes nothing and returns the receipt of the first, marked idempotent. |
| `EmergencyEmitter.EmitAgain` | src/everweb/supervisor/emergency_emitter.py:208-302 | After any history of emits of one snapshot, each killed anywhere, one more emit succeeds exactly if nothing raises and there is a receipt already or the survivors allow it; the directory then holds the draft of that snapshot and an intact receipt for it. |
| `EmergencyEmitter.KilledThenEmitted` | src/everweb/supervisor/emergency_emitter.py:208-302 | The same for real emits from the empty directory on. |
| `EmergencyEmitter.EmitAfterKill` | src/everweb/supervisor/emergency_emitter.py:208-302 | From end to end: for a worker whose trace and evidence were cut anywhere at or after the flushed bytes, and a snapshot that counts only safe events, the emit succeeds exactly if nothing raises, and works from exactly what survived. |
| `EmergencyEmitter.CutsAreNotRefused` | src/everweb/supervisor/emergency_emitter.py:226-231 | No cut of the two logs of a worker is a reason to refuse an emit, if the snapshot counts no event the cut took. |
| `EmergencyEmitter.WriteAll` | src/everweb/supervisor/emergency_emitter.py:293-302 | The three writes in their order: they succeed exactly if nothing raises. |
| `EmergencyEmitter.Gather` | src/everweb/supervisor/emergency_emitter.py:216-239 | Snapshot, trace and evidence are accepted exactly when every condition of an emit holds. |
| `EmergencyEmitter.DraftOfShows` | src/everweb/supervisor/emergency_emitter.py:149-164 | The artifact references of a draft are exactly the best candidate and the last screenshot, the candidate first and neither twice; its URLs are exactly the last URL, if there is one. |
| `EmergencyEmitter.WrittenShows` | src/everweb/supervisor/emergency_emitter.py:241-291 | The three files of one emit show the snapshot, the counts of what was recovered, and the draft beside them. |
| `EmergencyEmitter.LoadExistingReceipt` | src/everweb/supervisor/emergency_emitter.py:304-339 | A receipt is returned exactly if nothing raises and it is for this execution and carries the digest of the well-formed draft beside it; any other is reported as corrupt. |
| `EmergencyEmitter.VerifyWrittenDraft` | src/everweb/supervisor/emergency_emitter.py:401-421 | Succeeds exactly if nothing raises and the draft on disk is the one expected. |
| `EmergencyEmitter.ConsistentIsIntact` | src/everweb/supervisor/emergency_emitter.py:304-339 | The receipt that an emit has left is intact, and is the one it wrote. |
| `EmergencyEmitter.AnyEmits` | src/everweb/supervisor/emergency_emitter.py:208-302 | What any sequence of emits, each possibly killed after any write, really does to the directory is one of the histories the lemmas are about. |
| `EmergencyEmitter.EmitOrDie` | src/everweb/supervisor/emergency_emitter.py:208-302 | One emit that may be killed: a receipt is still on disk only with its own draft and report. |
| `EmergencyEmitter.ReceiptLast` | src/everweb/supervisor/emergency_emitter.py:293-302 | In every history, a receipt on disk comes from one emit together with the draft and the report there, its digest and size are the draft's, and nothing changes from then on. |
| `EmergencyEmitter.ReceiptStays` | src/everweb/supervisor/emergency_emitter.py:212-214 | Once there is a receipt, no later emit changes a file. |
| `EmergencyEmitter.DraftConverges` | src/everweb/supervisor/emergency_emitter.py:241-254 | With an unchanged snapshot, every draft and every receipt digest on disk is that of the snapshot, however the clock and the logs differ and wherever emits were killed. |
| `EmergencyEmitter.FlushedSnapshotIsEmittable` | src/everweb/supervisor/emergency_emitter.py:228-231 | If the cut kept every event the snapshot counts, the check against the recovered trace passes. |
| `EmergencyEmitter.EmitDirectory.AtomicWrite` | src/everweb/supervisor/emergency_emitter.py:375-399 | Temporary file, write, sync, replace, directory sync: it succeeds exactly if none of them raises; whichever does, the file is replaced as a whole with synced content or not at all, and it takes two raises to leave a temporary file. |
| `EmergencyEmitter.EmitDirectory.Replace` | src/everweb/supervisor/emergency_emitter.py:390 | The replacement is one visible step. |
| `Heartbeat.HeartbeatMonitor.Register` | src/everweb/supervisor/heartbeat.py:127-142 | A lifecycle is registered exactly when there is no active one, from the time just read; only its record changes. |
| `Heartbeat.HeartbeatMonitor.Unregister` | src/everweb/supervisor/heartbeat.py:144-146 | Removes one lifecycle and no other. |
| `Heartbeat.HeartbeatMonitor.RecordPayload` | src/everweb/supervisor/heartbeat.py:148-184 | A payload is taken exactly when it is a heartbeat of that execution and pid and the lifecycle is active, and is dated by the clock; a refused one changes nothing. |
| `Heartbeat.HeartbeatMonitor.MarkExited` | src/everweb/supervisor/heartbeat.py:186-188 | Marks one known lifecycle as exited. |
| `Heartbeat.HeartbeatMonitor.Status` | src/everweb/supervisor/heartbeat.py:194-224 | Exited is final; otherwise the age at the time just read, since the last heartbeat or since the start, decides. |
| `WorkerPool.AnyRun` | src/everweb/supervisor/worker_process.py:213-365 | Over every sequence of calls with arbitrary processes, each of them spawned by the context and accounted for by the pool, which may end at any time, queues and clock readings: between calls the leases are the images of the slots, all injective, every live process has a slot, every slot is watched, and no live worker lost its slot or leases. |
| `WorkerPool.NoTwoLiveShare` | src/everweb/supervisor/worker_process.py:367-385 | No two live processes share an execution, a task or a CDP URL. |
| `WorkerPool.SpawnWorkerPool.Start` | src/everweb/supervisor/worker_process.py:213-285 | Decided completely: a conflict exactly if a lease is taken; otherwise it fails exactly if making the queue, spawning, finding a pid or making the handle failed; otherwise the worker runs in its slot, and the handle has its pid. Every failing way out leaves the slots as they were, or a slot that still owns a process that was asked to terminate, then killed, and is running. |
| `WorkerPool.SpawnWorkerPool.Spawn` | src/everweb/supervisor/worker_process.py:219-285 | The spawning part of start, with its exception path: it returns a handle exactly if no step failed, and no process that the context spawned is lost. |
| `WorkerPool.SpawnWorkerPool.Adopt` | src/everweb/supervisor/worker_process.py:245-253 | The monitor cannot refuse a worker whose leases were free, and filling its slot restores the invariant. |
| `WorkerPool.SpawnWorkerPool.Abandon` | src/everweb/supervisor/worker_process.py:255-280 | A half-started process is stopped and its leases freed, or kept in a slot with a heartbeat lifecycle. |
| `WorkerPool.SpawnWorkerPool.Occupy` | src/everweb/supervisor/worker_process.py:245-253 | Filling the reserved slot restores the invariant of the pool. |
| `WorkerPool.SpawnWorkerPool.GiveUp` | src/everweb/supervisor/worker_process.py:255-285 | Undoing a reservation restores the invariant of the pool. |
| `WorkerPool.SpawnWorkerPool.Reserve` | src/everweb/supervisor/worker_process.py:367-385 | Leases are taken exactly when execution, task and CDP URL are all free. |
| `WorkerPool.SpawnWorkerPool.FinalizeSlot` | src/everweb/supervisor/worker_process.py:387-411 | Fails exactly if the process has not ended, has no heartbeat record, or its queue hands out a message that cannot be read, and then keeps slot and leases; otherwise removes exactly these. Every slot of a valid pool has a record, so Reap and Shutdown meet only the last. |
| `WorkerPool.SpawnWorkerPool.EndLifecycle` | src/everweb/supervisor/worker_process.py:405-406 | What the queue and the monitor can make finalizing fail with. |
| `WorkerPool.SpawnWorkerPool.Release` | src/everweb/supervisor/worker_process.py:455-458 | Frees exactly the leases of one ended worker. |
| `WorkerPool.SpawnWorkerPool.DrainSlot` | src/everweb/supervisor/worker_process.py:413-446 | Returns exactly the heartbeats for this worker among the messages taken, in order, none after an end mark; notes an error exactly if one was refused and none is noted yet; raises only without a record or at a message that cannot be read. |
| `WorkerPool.SpawnWorkerPool.DrainOne` | src/everweb/supervisor/worker_process.py:420-441 | One turn of its loop. |
| `WorkerPool.SpawnWorkerPool.HandleMessage` | src/everweb/supervisor/worker_process.py:413-446 | One message: the end mark, a heartbeat of the right process, or an error kept in the slot; it raises exactly when the message cannot be read or the record it looks for is not there. |
| `WorkerPool.SpawnWorkerPool.DrainHeartbeats` | src/everweb/supervisor/worker_process.py:287-299 | Returns the heartbeats taken, in order, if none was ever refused; else the first error; a message that cannot be read is reported exactly if it was met. No other worker is touched. |
| `WorkerPool.SpawnWorkerPool.LatestHeartbeat` | src/everweb/supervisor/worker_process.py:301-311 | The last heartbeat taken from the worker, among those taken now or else before; errors as for a drain. |
| `WorkerPool.SpawnWorkerPool.WorkerStatus` | src/everweb/supervisor/worker_process.py:313-325 | Decided completely: without a slot, exited or unknown; with one, a message that cannot be read, or the error noted, or what the record and the time just read decide; a lifecycle that was active is ended exactly by an end mark taken or the end of the process. |
| `WorkerPool.SpawnWorkerPool.Reap` | src/everweb/supervisor/worker_process.py:327-346 | Leases are freed only once the process, joined with that timeout, has ended; the receipt has its task, pid and exit code; on a timeout the slot stays, and also at a message that cannot be read. |
| `WorkerPool.SpawnWorkerPool.Shutdown` | src/everweb/supervisor/worker_process.py:348-365 | Every worker that can be stopped is finalized with its own receipt, exit code included; the error lists exactly those that keep their slots, each of which was asked to terminate, then killed, with a grace after both, and is running; only a message that cannot be read ends it early. |
| `WorkerPool.SpawnWorkerPool.StopOne` | src/everweb/supervisor/worker_process.py:355-359 | One worker of a shutdown; no process but its own changes. |
| `WorkerPool.Context.SpawnProcess` | src/everweb/supervisor/worker_process.py:225-238 | Constructing and starting a process may spawn and return, spawn and raise, raise, or leave no pid; all but the first count as a failure. |
| `WorkerPool.TerminateAndJoin` | src/everweb/supervisor/worker_process.py:471-488 | Reports stopped exactly if the process has ended; one that has not was asked to terminate, given its grace, killed, and given it again, in that order. |
| `WorkerPool.HoldOne` | src/everweb/supervisor/worker_process.py:249-253 | One more slot with fresh leases keeps every image exact and injective. |
| `WorkerPool.ReleaseOne` | src/everweb/supervisor/worker_process.py:407-408 | One slot less takes exactly its task, CDP URL and process out of the images. |
| `AxSnapshot.NormalizeAxSnapshot` | src/everweb/perceive/ax_snapshot.py:83-157 | The targets are the first 60 interactive nodes in preorder, numbered 1 to n; truncated if and only if there are more; the headings are all non-empty heading names in preorder, also after truncation. Each target has the role, name, state and frame of its node, and an address only as a link. |
| `AxSnapshot.FoundExactly` | src/everweb/perceive/ax_snapshot.py:62-73 | Interactive are exactly the nodes whose role, in lower case, is one of the seventeen; the headings found are exactly the non-empty names of heading nodes. |
| `AxSnapshot.Walk.Visit` | src/everweb/perceive/ax_snapshot.py:104-150 | Visiting a node accounts for its whole subtree, parents before children, children in order. |
| `AxSnapshot.Walk.Take` | src/everweb/perceive/ax_snapshot.py:113-146 | What one node adds to the headings and the targets. |
| `DomExtract.ExtractDomTargets` | src/everweb/perceive/dom_extract.py:100-152 | Exactly the controls among the nodes, in order, numbered on from the start; each with the role of its tag and type, its text or else its label, its states, frame and box, and an address only as an anchor. |
| `DomExtract.FoundExactly` | src/everweb/perceive/dom_extract.py:125-129 | The controls are exactly the nodes whose tag, in lower case, is one of the six: the tags filtered out are none of them anyway. |
| `DomExtract.RoleForTag` | src/everweb/perceive/dom_extract.py:75-97 | The role of every tag and input type, as a table. |
| `PageView.NoneIsMissing` | src/everweb/perceive/page_view.py:29-43 | Every target of either side has one with its role, name and frame in the view, and the view holds no others. |
| `PageView.MergeTargets` | src/everweb/perceive/page_view.py:29-43 | The accessibility targets, then the DOM targets that are the first of a key neither side showed before. |
| `PageView.GapsAreExact` | src/everweb/perceive/page_view.py:38-42 | The appended indices increase, and are exactly those that fill a gap. |
| `PageView.MergeCoversKeys` | src/everweb/perceive/page_view.py:29-43 | The accessibility targets stay a prefix, every key of either side is there, and no other. |
| `PageView.MergeRepeatsNoKey` | src/everweb/perceive/page_view.py:39-42 | No appended target has the key of a target before it. |
| `PageView.MergedIds` | src/everweb/perceive/page_view.py:63-75 | The numbering of the DOM targets starts after the accessibility targets, so no two targets of the view share an identifier. |
| `PageView.BuildPageView` | src/everweb/perceive/page_view.py:46-107 | The view is built from both sources, with distinct identifiers, unless page, epoch or frame is invalid; the unknowns say when the accessibility part was empty or truncated. |
| `Decimal.PrintThenRead` | src/everweb/act/locator.py:9-13 | Reading a printed number gives the number back. |
| `Locator.EpochOfRef` | src/everweb/act/locator.py:9-13 | The epoch that a reference was minted under can be read back from it. |
| `Locator.RefIsInjective` | src/everweb/perceive/ax_snapshot.py:123 | Different epochs or identifiers print as different references. |
| `Locator.RefsAreUnique` | src/everweb/act/locator.py:32-39 | No two targets of a built view have the same reference. |
| `Locator.RefRoundTrip` | src/everweb/act/locator.py:16-41 | A reference of a built view, with any space around it, resolves to the role, name and frame of its own target. |
| `Locator.OtherEpochIsStale` | src/everweb/act/locator.py:25-30 | A reference minted under any other epoch is refused as stale. |
| `Locator.ResolvesExactly` | src/everweb/act/locator.py:16-41 | A text resolves if and only if, stripped, it is the reference of a target of the view. |

## Left out

- ArtifactStore.Store.Recover: commits a surviving artifact without syncing its directory, as the code does; durability against power loss is stated for the order of operations inside a put only (`hasty` does not grow).
- ArtifactStore.Store.Put: assumes one size limit for every store of a directory and no outside writers; `exists()` on a path does not raise; symbolic links, junctions, portable names, file systems that fold case and Windows locking are not part of this model.
- ArtifactStore.Store.Prepare: the entries of new directories are never synced, in the code as in the model, so durability of an artifact is up to its own directory; a directory that one put makes while another holds the lock is taken as made before or after that turn.
- FileSystem.Volume.WriteTemp: a write that stores other bytes without raising is modelled for temporary files, where the code reads back, and not for identity records.
- ArtifactStore.DepositOf: `put_json` and its encoding come before it; MIME type and creation time of a reference do not affect any branch and are left out.
- The advisory lock: it is taken as exclusive, and opening or taking it never raises, so a turn under it is one method call; threads inside one store likewise.
- JsonHeap.Normalize: nothing else changes the containers while they are walked; the interpreter's recursion limit is left out, as for AxSnapshot.Walk.Visit.
- JsonHeap.NormalizeJson: says that the error names an obstacle that is there, not that it is the first one the walk meets.
- CanonicalJson.Text: a float stands for the text it is written as, any number of RFC 8259 that is not an integer; that this text is the shortest for a double is left out. Strings are Unicode scalar values, so the error on lone surrogates does not occur.
- TraceLog.TraceWriter.Append: a `write` that raises on an open file is not modelled; writes to a closed file and flushes that raise are. Durability arguments of another type and invalid clocks are left out.
- EvidenceLog.EvidenceWriter.Append: takes each of the two values of an atom with its strict JSON content, if it has one; its other fields are an opaque list of members. The same writes are left out.
- EmergencyEmitter.Emit: overlapping emits of one execution, which the code does not exclude, are not modelled; nor are checks of path names, errors in opening the snapshot or the two logs, which reach the caller before anything is written, and a clock that is not timezone-aware. The constant terminal state and the three constant relative paths are left out.
- EmergencyEmitter.EmitDirectory.WriteTemp: a write that stores other bytes without raising is not modelled here.
- WorkerPool.SpawnWorkerPool.Start: assumes a clock of finite floats; a clock that raises while an unstoppable worker is being registered would leave it without a heartbeat record. Child bootstrap, closing queues and process objects, and the heartbeat thread are left out.
- WorkerPool.Slot and Heartbeat.Record: slots and heartbeat records are values in maps that the methods replace, not objects that others could alias; a queue is the sequence of messages it will yet hand out, and a drain takes any part of it from the front.
- Heartbeat.WorkerHeartbeat: phase, progress time, the browser and model flags and memory are left out; they are validated by pydantic and never read here.
- Locator.EpochPrefix: digits are ASCII only, and the interpreter's limit on the length of integer texts is left out.
- AxSnapshot.NormalizeAxSnapshot and DomExtract.ExtractDomTargets: `lower()` is ASCII; attributes arrive already sorted into strings, booleans and boxes.
- PageView.BuildPageView: the page signature, titles, open pages and the protected state are copied without a branch and left out.
- Locator.ResolveRoleNameLocator: does not claim that role and name identify one element of the live page.
- Playwright, the model transport, CDP connection, capability probes, configuration, budgets, policy gates and the phase list of the runtime: foreign calls or easy members.
- Snapshot persistence: taken as an atomic register whose content is a parameter of an emit.
