# Proofs about meridian-rs

meridian-rs is an engine over workspaces of Markdown files: it commits edits under a lock, caches what it
knows about the files, addresses sections of documents across roots, runs metered scripts, and checks what
pins and receipts claim. This project models the parts of it where a subtle mistake would be silent, in
Dafny, and proves what their documentation promises; where a promise does not hold as stated, it gives the
counterexample and the exact condition.

`dafny verify dfyconfig.toml` checks everything. Each module stands for one part of the engine:

| module | part |
|---|---|
| `Fence`, `FenceRuns` | the downgrade fence: the activation ladder over a directory whose unsynced entry changes a crash may lose, in place and as a system of interleaved attempts, writers, failures and crashes |
| `Sentinel`, `SentinelRuns` | the registration sentinel of a cache drawer: the locked operations in place, and any number of processes interleaved step by step, with the lock and without |
| `Checkpoint`, `DigestMemos`, `Paths` | the two persisted memos, one whole-or-nothing, one degrading row by row, their maps keyed by paths as the standard library compares them, component by component |
| `StoredUri`, `Address` | the stored form of an address, strict and percent-encoded, and the colon law of the spelled form |
| `ArmedDigest` | the canonical JSON form an armed set is hashed over |
| `Replay` | the script plane's attempt and its replay from a recording |
| `NestingGuard` | the byte scan that bounds parser recursion |
| `Scripts`, `ReadBound` | a small script language over an abstract machine, and the syntactic walk that says which script bindings a read already carries |
| `CommentLexers`, `CommentEdits` | the two comment scanners of the comment audit, and what editing a comment does to the second |
| `MountTable`, `BlockGrammar`, `Names` | the mount table, its projection, and the config blocks it is read from |
| `DependencyClosure` | the lock-file dependency closure behind the parse cache's generation |
| `PinPlane` | the pin plane of `check` |
| `Bytes`, `Stat`, `ByteOrder`, `Positions` | byte strings, decimal, hex and UTF-8 spellings, stat keys, byte order, positions in a text |

Strings are byte sequences where bytes matter (`Bytes`), with UTF-8 validity written out after RFC 3629.
Hashes, the JSON reader of the sentinel, git, the file system outside the modelled entries, the clock and
the script language are parameters; an assumption on a parameter is a `requires` of the members that need it
(`Sentinel.Lawful`: a written record reads back as itself; `BlockGrammar.Lawful`: which characters are
whitespace).

## Where the code and its documentation part

- **The digest memo** says it fails only toward reading. That holds of identities: no lookup in a torn memo
  serves a digest at a stat key it was not recorded with. It does not hold of paths: a file torn inside a
  path serves that path's leaf under the piece that is left (`DigestMemos.TornInsideAPath`). A torn file is true
  to paths as well exactly when it is not UTF-8, or its unterminated line reads as no row or a recorded one and
  every whole row whose path ends in a carriage return, and which no later row reads over, agrees with what is
  recorded without the return (`DigestMemos.TornIsFaithfulWhen`; with no such path only the unterminated line
  decides).
  The round trip of "any path without a newline" fails because a line loses a carriage return at its end, and
  the map takes `b`, `b/` and `b/.` for one path. Up to three recorded paths are spellings of a path with a
  return after it (`b\r`, `b/\r`, `b/.\r`), all after it in the map's order, and the last of them reads over it. A
  path comes back with its own leaf exactly when the one that reads over it has that leaf too, or, where there
  is none, when it is not empty, is UTF-8, has no newline and does not end in a carriage return
  (`DigestMemos.RoundTrip`).
- **The stored URI** accepts a heading that begins with `^` and would mint it as a block
  (`StoredUri.EncodeDecoded` is exact).
- **The fence**: an attempt that returns Ok does not promise a durable fence. An early return over another
  attempt's unsynced rename syncs nothing, and the entry of `.meridian` in the workspace root is synced by
  nobody (`FenceRuns.OkBeforeDurable`). From a tidy disk the fence outlives every crash exactly when `.meridian`
  was there before, durable in its root, and the attempt either found no fence or found its link durable
  (`FenceRuns.OkIsDurableWhen`). Running the ladder directly over an active fence, past the status check,
  truncates its marker (`FenceRuns.BareLadderUnmakesTheMarker`).
- **The nesting guard** bounds brackets and each unary run by 500, not the height of the tree: `not` and the
  signs are separate runs on either side of a comparison, so the height bound is 1000 * 501 + 500, and it is met
  (`NestingGuard.HeightBoundIsMet`).
- **The read-bound walk** says a name it leaves out is one whose value the echo entry already carries. It goes by
  the callee's spelling: a name left out holds the face of the read that marked it when the module does not
  itself bind the call (`ReadBound.CarriedWhen`). Where it does, the name may hold a computed value, which is then
  nowhere, or a face after all (`ReadBound.ShadowingHides`). And a face is an object that can be written in place:
  after `x = read("notes.md")`, `x["sum"] = 40 + 2` leaves `x` marked, with neither name bound
  (`ReadBound.SubscriptHides`), and so does a call of a function stored in `args` that writes into `x`
  (`ReadBound.InputsHide`). A name written into at the top level since its read is no longer untouched, in any
  completed execution (`ReadBound.StruckIsWritten`). A name is untouched when a company of names, the inputs'
  among them or not, keeps to itself throughout the module and nothing in it may write in place since the read
  (`ReadBound.UndisturbedIsIntact`); where every name left out has such a company the capture hides nothing but
  what took an input's name (`ReadBound.CaptureHidesNothing`). Between the two lie control flow, calls and
  aliasing, which the text does not decide: whether a write runs, and whether the object it meets is the face.
- **The inputs** stay out of the captured bindings by name, "inputs are not results". A script that binds `args` or
  `files` itself loses that result (`ReadBound.InputNameHides`; `ReadBound.CaptureHidesNothingComputed` is exact).
- **The comment sweep** does not count a newline inside a char literal, so lines after one are reported early
  (`CommentLexers.ReportedPlaceIs` is exact for line and column; `CommentLexers.ReportedPlaceIsWrong` is a source
  where both are wrong).
- **The comment-only gate** takes equal residues for equal code. From a source with no NUL among its code and
  literals they mean equal code, up to comments and whitespace, exactly when the other source has none there
  either (`CommentLexers.PassMeansSameGist`), and between any two exactly when their pieces are as many and as long
  (`CommentLexers.PassMeansSameGistWhen`); `CommentLexers.NulsSpellALiteral` is a wrong pass. And it refuses one
  comment-only edit: a lone tick, a line comment, a newline and a tick are, without the comment, a char literal.
  Deleting a line comment passes exactly when that is not what is left (`CommentEdits.LineCommentDeleted`);
  rewriting a comment of either kind always passes (`CommentEdits.LineCommentEdited`,
  `CommentEdits.BlockCommentEdited`).
- **A tool block** keeps a payload exactly when some line is the bare `config:` marker. A `config:` line with a
  value on it parses too, and the value is dropped; that happens exactly when there is no marker and the last
  line is a `config` field (`BlockGrammar.ConfigIsKeptWhen`, `BlockGrammar.InlineConfigIsDropped`). And a
  payload is not verbatim where a line of it ends in a carriage return (`BlockGrammar.ToolComesBack` is exact).

## Model

| member | source | states |
|---|---|---|
| Fence.Workspace.CheckStatus | crates/fs/src/fence.rs:185-238 | answers the certified state or the loud error, case by case |
| Fence.Workspace.BuildTombstone | crates/fs/src/fence.rs:263-279 | leaves the tombstone directory and its marker as the first five rungs do, or stops with their error |
| Fence.Workspace.WriteTombstone | crates/fs/src/fence.rs:274-278 | creates, truncating, writes and syncs the marker, then its directory |
| Fence.Workspace.StageLink | crates/fs/src/fence.rs:290-298 | the inert symlink staged over whatever was left there, a directory refused |
| Fence.Workspace.RenameLink | crates/fs/src/fence.rs:302-303 | the link moved over the lock name in one change, or the error |
| Fence.Workspace.Commit | crates/fs/src/fence.rs:302-309 | the rungs from the rename on reach the requested phase or stop with their error |
| Fence.Workspace.Publish | crates/fs/src/fence.rs:283-309 | the rungs from the barrier on reach the requested phase or stop with their error |
| Fence.Workspace.ActivateUntil | crates/fs/src/fence.rs:258-310 | the ladder in place reaches exactly the disk and result the rung-by-rung steps reach, for every phase and every disk |
| Fence.Workspace.Install | crates/fs/src/fence.rs:331-332 | the lock taken, then the whole ladder |
| Fence.Workspace.Activate | crates/fs/src/fence.rs:327-336 | one attempt, entered through the status check, is the run of its steps |
| FenceRuns.CurrentFrom | crates/fs/src/fence.rs:32-44 | whatever the current view shows under a name is durable or pending there |
| FenceRuns.SoundIsCertified | crates/fs/src/fence.rs:79-90 | a sound disk never dangles and answers Active exactly when the lock name holds the link, else NotInstalled |
| FenceRuns.SettledIsSound | crates/fs/src/fence.rs:185-238 | a settled disk is one a run may start from exactly when `status` certifies it |
| FenceRuns.BarrierSeals | crates/fs/src/fence.rs:281-286 | syncing `.meridian` puts the built tombstone beyond the reach of any crash |
| FenceRuns.RenameKeeps | crates/fs/src/fence.rs:300-306 | over a sealed tombstone the rename keeps the disk sound |
| FenceRuns.StepKeeps | crates/fs/src/fence.rs:258-310 | every rung, and the status check and the lock before them, keeps the disk sound and hands the next rung what it relies on |
| FenceRuns.ActiveFromTheCommitPointOn | crates/fs/src/fence.rs:97-123 | from an unfenced disk, a ladder that reached its phase left the fence active exactly when the phase is Renamed or ParentSynced, and with ParentSynced the rename is durable |
| FenceRuns.CompletedIsDurable | crates/fs/src/fence.rs:308-309 | a ladder that ran to its end from any rung leaves the link durable in `.meridian` |
| FenceRuns.CrashKeeps | crates/fs/src/fence.rs:38-44 | whatever subset of unsynced changes a crash keeps, the survivor is sound: the link absent, or its tombstone there |
| FenceRuns.NextKeeps | crates/fs/src/fence.rs:46-56 | every event (an attempt's step, its failure or death, a writer, a crash) keeps the system invariant |
| FenceRuns.EveryRunIsCertified | crates/fs/src/fence.rs:32-44 | through any interleaving from a sound disk: no dangling link, only NotInstalled or Active, and Active once an attempt since the last crash returned Ok |
| FenceRuns.EveryRunIsRerunnable | crates/fs/src/fence.rs:250-252 | from every disk any such run reaches, a further undisturbed attempt returns Ok with the fence active |
| FenceRuns.RerunEndsActive | crates/fs/src/fence.rs:327-336 | from every sound disk with nothing foreign in the way, one attempt returns Ok with the fence active |
| FenceRuns.DurableWhen | crates/fs/src/fence.rs:117-123 | an active fence outlives every crash exactly when the link is durable in `.meridian` and `.meridian` in its root |
| FenceRuns.OkIsDurableWhen | crates/fs/src/fence.rs:327-336 | an attempt from any tidy disk returns Ok with the fence active, and it outlives every crash exactly when `.meridian` was there and durable in its root and the attempt found no fence or a durable one |
| FenceRuns.OkBeforeDurable | crates/fs/src/fence.rs:328-330 | from every unfenced disk: one attempt cut before its last sync, a second returning Ok, a crash, and the fence is gone |
| FenceRuns.BareLadderUnmakesTheMarker | crates/fs/src/fence.rs:273-276 | run over an active fence, the bare ladder passes through a state that `status` refuses |
| FenceRuns.WithoutTheBarrier | crates/fs/src/fence.rs:32-44 | skipping the sync of `.meridian`, some crash leaves a dangling link |
| Sentinel.EffectKeepsIdentity | crates/cache/src/sentinel.rs:229-295 | no operation changes a valid sentinel's schema, workspace or creation time, or takes its successor away |
| Sentinel.StampAndSupersedeCommute | crates/cache/src/sentinel.rs:255-295 | a stamp and a supersede give the same record in either order |
| Sentinel.LockedDrawer.FreeName | crates/cache/src/sentinel.rs:304-327 | the counter loop ends at the first free temp name |
| Sentinel.LockedDrawer.WriteTmp | crates/cache/src/sentinel.rs:304-327 | one new file with the data under a name that was free; nothing else changes |
| Sentinel.LockedDrawer.Install | crates/cache/src/sentinel.rs:208 | the rename: the sentinel is the temp file, the temp name is gone |
| Sentinel.LockedDrawer.Settle | crates/cache/src/sentinel.rs:187-217 | link exclusively; else adopt a valid sentinel, leave a newer format, heal anything else |
| Sentinel.LockedDrawer.RegisterLocked | crates/cache/src/sentinel.rs:172-218 | the drawer then reads as the registration's effect, the winning record is returned, temp files are as before, a future sentinel's bytes untouched |
| Sentinel.LockedDrawer.StampLocked | crates/cache/src/sentinel.rs:255-266 | last use set on a valid sentinel, else nothing touched and false |
| Sentinel.LockedDrawer.SupersedeLocked | crates/cache/src/sentinel.rs:280-295 | the successor set on a valid sentinel, else nothing touched and false |
| SentinelRuns.FiledStays | crates/cache/src/sentinel.rs:301-327 | in every interleaving each process's temp file stays its own, whole once written, and no file of another |
| SentinelRuns.OnlyCommitsShow | crates/cache/src/sentinel.rs:132-137 | a reader's bytes change only in a commit step, and then to one whole record |
| SentinelRuns.StepTakesEffect | crates/cache/src/sentinel.rs:172-295 | a step of the lock holder leaves the reading alone or applies its operation at once |
| SentinelRuns.LockedStays | crates/cache/src/sentinel.rs:146-295 | every event, deaths at any step included, keeps the locked invariant and refines the atomic operations |
| SentinelRuns.SuccessIsVisible | crates/cache/src/sentinel.rs:255-295 | a stamp or supersede that answers true changed, in that step, its own field of the current record and no other |
| SentinelRuns.NoUpdateIsLost | crates/cache/src/sentinel.rs:229-295 | over every run from a valid sentinel: it ends with the time of the last stamp that answered true and the heir of the last supersede that did, and everything else as it was |
| SentinelRuns.IdentityIsForever | crates/cache/src/sentinel.rs:127-145 | once valid, workspace, creation time and schema never change and a retired drawer stays retired, over every run |
| SentinelRuns.FutureIsUntouched | crates/cache/src/sentinel.rs:139-142 | a sentinel of a newer schema stays byte for byte the same over every run |
| SentinelRuns.ReadersSeeWhole | crates/cache/src/sentinel.rs:114-125 | an unlocked probe, over every run, sees the first bytes or one whole record, lock or no lock |
| SentinelRuns.RegistrarsConverge | crates/cache/src/sentinel.rs:135-138 | over every run from any drawer, any two registrations that returned under a format not newer returned the identity the sentinel shows |
| SentinelRuns.LinkAloneConverges | crates/cache/src/sentinel.rs:185-192 | from an absent sentinel, without the lock, the exclusive link alone makes every registration return the one record |
| SentinelRuns.GarbageNeedsTheLock | crates/cache/src/sentinel.rs:205-211 | from garbage, without the lock, some run of two registrations returns two different identities |
| Checkpoint.Prepare | crates/fs/src/checkpoint.rs:195-235 | captures exactly when a domain was seen and no path has a newline; a watermark survives exactly when the measured granule clears the row |
| Checkpoint.Encode | crates/fs/src/checkpoint.rs:240-291 | the sealed payload: version, checksum, five header lines, one line a row |
| Checkpoint.Restore | crates/fs/src/checkpoint.rs:309-379 | the line cursor over the bytes restores, or discards for the same reason in the same order, as the whole-file reading |
| Checkpoint.ReadRows | crates/fs/src/checkpoint.rs:350-359 | reads rows to the end, counting them, or names the bad row |
| Checkpoint.ParsePrintedRow | crates/fs/src/checkpoint.rs:394-420 | a printed row reads back exactly, and an empty path never reads |
| Checkpoint.RoundTrip | crates/fs/src/checkpoint.rs:240-379 | under the saving identity an encoded snapshot restores its rows, cursor and root, marked unobserved |
| Checkpoint.RestoredRows | crates/fs/src/checkpoint.rs:350-359 | from rows at different paths, what is restored holds each row's leaf at the components of its path and nothing else |
| Checkpoint.OnlySaveableRoundTrips | crates/fs/src/checkpoint.rs:309-379 | conversely, a snapshot that round-trips has no newline in its identity and no empty path |
| Checkpoint.TornAndResummedIsRefused | crates/fs/src/checkpoint.rs:322-362 | every proper prefix of a payload is refused even under a recomputed checksum, by structure when the identity is the same |
| Checkpoint.RestoredIsOneLineEach | crates/fs/src/checkpoint.rs:309-379 | nothing restored, from any bytes, carries a newline in its identity or an empty path |
| Checkpoint.SavedThenRestored | crates/fs/src/checkpoint.rs:195-379 | prepare, encode and restore keep every key and digest, and a watermark exactly where the granule clears it |
| DigestMemos.DigestMemo.FromBytes | crates/fs/src/digestmemo.rs:62-82 | never fails; the leaves are those of the rows that read, last one winning |
| DigestMemos.DigestMemo.ToBytes | crates/fs/src/digestmemo.rs:87-110 | the version line and a row for every path the format carries |
| DigestMemos.DigestMemo.Lookup | crates/fs/src/digestmemo.rs:114-125 | serves the recorded digest exactly at the recorded identity, and counts a hit or a miss |
| DigestMemos.DigestMemo.Record | crates/fs/src/digestmemo.rs:129-131 | records, and a lookup at that identity then serves it |
| DigestMemos.TornRow | crates/fs/src/digestmemo.rs:148-171 | a torn row that still reads was torn inside its path and carries its own leaf under a piece of it |
| DigestMemos.TornHoldsOnlyRecorded | crates/fs/src/digestmemo.rs:58-82 | from any byte prefix, every leaf held was recorded with that identity and digest under a path that extends one with the components it is held under |
| DigestMemos.TornServesOnlyRecorded | crates/fs/src/digestmemo.rs:58-131 | from any byte prefix, a lookup serves only a digest recorded with that same stat key |
| DigestMemos.TornIsFaithfulWhen | crates/fs/src/digestmemo.rs:18-21 | for every memo and byte prefix: every leaf held is recorded under those same components exactly when the prefix is not UTF-8, or its unterminated line is no row or a recorded one and each whole row whose path ends in a carriage return, unless a later row reads over it, agrees with what is recorded without the return |
| DigestMemos.WithoutReturns | crates/fs/src/digestmemo.rs:18-21 | and where no recorded path ends in a carriage return, the unterminated line alone decides |
| DigestMemos.TornInsideAPath | crates/fs/src/digestmemo.rs:148-159 | in any memo, a file torn inside a recorded path between two characters serves that path's leaf under the components of the piece, which is wrong unless they are recorded with that same leaf |
| DigestMemos.WholeServes | crates/fs/src/digestmemo.rs:62-110 | a whole file serves, under any components, the leaf of the last row that reads as a path of them |
| Paths.WithReturn | crates/fs/src/digestmemo.rs:62-110 | a carriage return after a non-empty path gives one of three component lists: it joins the last component, is one, or joins a trailing dot that was none |
| Paths.ReturnsAreOrdered | crates/fs/src/digestmemo.rs:62-110 | in the map's order the path itself comes first, then the return as a component, on a dot, in the last component |
| DigestMemos.RoundTrip | crates/fs/src/digestmemo.rs:62-110 | any recorded path comes back with its own leaf exactly when the last recorded spelling of it with a carriage return after it has that leaf, or there is none and the path is not empty, UTF-8, without a newline and not ending in a carriage return |
| StoredUri.EncodeComponent | crates/addr/src/stored.rs:160-177 | percent-encodes byte by byte, upper case |
| StoredUri.DecodeComponent | crates/addr/src/stored.rs:183-199 | decodes every escape or refuses, and answers only UTF-8 |
| StoredUri.UnescapeEncoded | crates/addr/src/stored.rs:160-199 | decoding an encoding gives the value back |
| StoredUri.CanonIsTheImage | crates/addr/src/stored.rs:306-319 | a value passes the canon check exactly when it is the encoding of some string |
| StoredUri.SignedPairIsNotCanon | crates/addr/src/stored.rs:188-192 | a signed hex pair decodes and is nobody's encoding |
| StoredUri.DecodeEncoded | crates/addr/src/stored.rs:212-344 | minting refuses exactly an empty vault, an unconfined path or an empty selector, and every minted URI reads back as its parts |
| StoredUri.EncodeDecoded | crates/addr/src/stored.rs:260-344 | every accepted URI is minted again byte for byte exactly when it is not a heading that begins with a caret |
| Address.ParseIsInverse | crates/addr/src/lib.rs:161-195 | an address parses from a spelling exactly when it is well-formed and prints as that spelling |
| Address.WithPathAdmits | crates/addr/src/lib.rs:246-259 | a path is replaced exactly when an address may carry it, and nothing else moves |
| Address.NoSmuggledRoot | crates/addr/src/lib.rs:237-259 | no sequence of replacements puts a root separator into a path's head or changes root or selector |
| Address.SeparatorMeansRootedOrRefused | crates/addr/src/lib.rs:297-305 | of the untrimmed-equal spellings that parse, exactly those the head test admits parse rooted |
| Address.ConfinedIsAPath | crates/addr/src/lib.rs:261-275 | a confined path without a fragment mark parses to itself, unrooted |
| ArmedDigest.PrintIsPrefixFree | crates/effects/src/digest.rs:108-117 | two canonical values followed by anything that cannot continue a number agree only if values and rests agree |
| ArmedDigest.PrintIsInjective | crates/effects/src/digest.rs:108-117 | equal canonical bytes are equal values |
| ArmedDigest.CanonicalIsInjective | crates/effects/src/digest.rs:124-127 | equal canonical bytes are equal lists of (path, edit) rows in equal order, for all six edit shapes |
| ArmedDigest.RowIsSorted | crates/effects/src/digest.rs:108-117 | a row prints its edit before its path, in byte order of the keys |
| ArmedDigest.ArmedDigestOf | crates/effects/src/digest.rs:124-136 | the two tags and 64 lower-case hex digits of the hash of the canonical form |
| ArmedDigest.DigestIsTheArmedSet | crates/effects/src/digest.rs:64-136 | where the hash does not collide, digests match exactly when paths and edits match in order, whatever the source lines and depths |
| Replay.Host.NextFace | crates/effects/src/lib.rs:1345-1370 | serves the next record of that very path and selector and moves on, or refuses and stays |
| Replay.Host.Ask | crates/effects/src/lib.rs:1373-1399 | a toc without a section, a cat with one, from whichever world |
| Replay.ScriptEntry.Read | crates/effects/src/kernel.rs:1702-1748 | the ceiling first, then the host, then the record in call order; a fault kept typed |
| Replay.ScriptEntry.Arm | crates/effects/src/kernel.rs:1548-1569 | all of a call's items or none, the armed list never cut |
| Replay.ScriptEntry.RunScript | crates/effects/src/kernel.rs:2839-2906 | the metered attempt, step by step, ends as the strategy's run does, its refusal classified in the source's order |
| Replay.RebindFiles | crates/effects/src/lib.rs:1303-1323 | expansions put back in place, later doubles dropped |
| Replay.FilesComeBack | crates/policy/src/declaration.rs:324-354 | the original members and the recorded rows give back the binding the attempt ran under |
| Replay.ReplayLaw | crates/effects/src/lib.rs:1262-1326 | for every strategy and every live host, replay has the same armed list and reads; the same outcome, ceilings included, unless the host refused a read, and then replay is refused it too |
| Replay.RecordingsAreGenuine | crates/effects/src/kernel.rs:1720-1746 | no attempt records a selector with a toc or none with a section |
| Replay.WrongFaceExactlyWhenForged | crates/effects/src/lib.rs:1374-1399 | the face-mismatch arms can be reached exactly on recordings no attempt makes |
| Replay.ReplayNeverForges | crates/effects/src/lib.rs:1345-1370 | whatever recording it is given, every read a replay serves is the recording's at that place: path, selector and face |
| Replay.CeilingsHold | crates/effects/src/kernel.rs:1708-1714 | reads and armed edits never exceed their ceilings, a read refusal means the ceiling was met, and facts mean nothing was refused |
| NestingGuard.SkipString | crates/effects/src/kernel.rs:217-240 | ends where the token reading of a string ends, escapes, triple quotes and unterminated lines included |
| NestingGuard.WordAtIsTheWholeWord | crates/effects/src/kernel.rs:244-252 | where the scan consults it, the two-sided keyword test is the whole-word test and its left half is always true |
| NestingGuard.NextToken | crates/effects/src/kernel.rs:155-209 | one turn of the scan takes one token, or a comment or whitespace and none |
| NestingGuard.Tally | crates/effects/src/kernel.rs:170-197 | counts a token or crosses a ceiling |
| NestingGuard.CheckNestingDepth | crates/effects/src/kernel.rs:145-212 | terminates, and accepts exactly the sources whose token counts stay within the ceilings |
| NestingGuard.RunIsTheUnaryTail | crates/effects/src/kernel.rs:183-197 | the run counter is the length of the longest tail of unary tokens |
| NestingGuard.AcceptedMeans | crates/effects/src/kernel.rs:141-144 | accepted exactly when nowhere more than 500 brackets are open and nowhere more than 500 unary tokens stand in a row |
| NestingGuard.AcceptedHeight | crates/effects/src/kernel.rs:52-61 | an accepted expression has at most 1000 * 501 + 500 brackets and unary operators on any path |
| NestingGuard.HeightBoundIsMet | crates/effects/src/kernel.rs:52-61 | one accepted expression has exactly that many |
| NestingGuard.PrintedIsRead | crates/effects/src/kernel.rs:145-212 | the scan reads the printed form of an expression as its tokens, so acceptance of that source bounds its height |
| ReadBound.Notes.CollectNames | crates/effects/src/kernel.rs:1599-1614 | the plain names a target binds, tuples at any depth, subscripts and attributes none |
| ReadBound.Notes.Unbind | crates/effects/src/kernel.rs:1616-1625 | takes exactly those names out |
| ReadBound.Notes.Walk | crates/effects/src/kernel.rs:1627-1677 | the in-place walk leaves the set the recursive reading gives |
| ReadBound.NestedWalk | crates/effects/src/kernel.rs:1665-1673 | below the top level the walk only removes, and exactly the names the statement can rebind, a `def` aside |
| ReadBound.TopKeeps | crates/effects/src/kernel.rs:1571-1698 | every execution of a top-level statement, with any branches, loop counts and breaks, keeps the marks true of the store: a name marked by the builtin holds the very face it returned |
| ReadBound.MarksAreTrue | crates/effects/src/kernel.rs:1571-1698 | so at the end of every completed run the marks are true of the store |
| ReadBound.CarriedWhen | crates/effects/src/kernel.rs:1571-1677 | in every completed run, a marked name no `def` takes holds the very face a read returned, when the module does not bind the call that marked it |
| ReadBound.CaptureHidesNothingComputed | crates/effects/src/kernel.rs:1756-1771 | where the module binds neither `read` nor `run`, a computed binding of a completed run is captured exactly when its name is not an input's, `def` rebinding included |
| ReadBound.ShadowingHides | crates/effects/src/kernel.rs:1584-1596 | for each of the two callees and every name, a module that binds the callee leaves the name out in a run where it holds a computed value, and in one where it holds a face |
| ReadBound.InputNameHides | crates/effects/src/kernel.rs:1756-1771 | for either input, a script that binds its name to a computed value completes, and the value is not captured |
| ReadBound.SubscriptHides | crates/effects/src/kernel.rs:1609-1612 | for every name: a read into it, then a value stored under a key of it; with neither `read` nor `run` bound the name is left out, and its face was written since |
| ReadBound.InputsHide | crates/effects/src/kernel.rs:2818-2836 | for any two names: a function that writes into the one is stored in `args`, a read goes into that one, the function is called through `args`; neither builtin is bound, the name is left out, and its face was written since |
| ReadBound.ThroughIsDisturbed | crates/effects/src/kernel.rs:2818-2836 | and no set of names makes that script's name count as undisturbed |
| ReadBound.StruckIsWritten | crates/effects/src/kernel.rs:1609-1612 | in every completed run, a name that a top-level subscript or attribute assignment wrote into since it was last read into does not hold an unwritten face |
| ReadBound.UndisturbedIsIntact | crates/effects/src/kernel.rs:1752-1755 | in every completed run, a marked name holds an unwritten face when the builtin marked it, no `def` took it, and some set of names with it, possibly `args` and `files`, keeps to itself in every statement and writes nothing in place since the read |
| ReadBound.QuietIsUndisturbed | crates/effects/src/kernel.rs:1752-1755 | which is so wherever no statement since the read that uses a module name or an input may write in place |
| ReadBound.UnboundStays | crates/effects/src/kernel.rs:2818-2836 | in every completed run an input whose name the module does not bind is still the one bound before it ran |
| ReadBound.CaptureHidesNothing | crates/effects/src/kernel.rs:1756-1771 | where neither builtin is bound and every name left out has such a set, each name of every completed run is captured, a function, an unwritten face, an input, or an input's name that the module bound |
| CommentLexers.SkipText | tools/comment-audit/sweep.py:106-115 | ends where the string ends, an escape possibly stepping past the source |
| CommentLexers.SkipBlock | tools/comment-audit/sweep.py:155-164 | ends where the nesting closes, or at the end of the source |
| CommentLexers.MatchRawOpen | tools/comment-audit/sweep.py:90-93 | recognizes a raw string's opening with its hashes, not inside a word |
| CommentLexers.BlockEntersAnywhere | tools/comment-audit/sweep.py:150-164 | starting after the doc marker or after the bare one, the same block ends at the same place |
| CommentLexers.LexComments | tools/comment-audit/sweep.py:71-184 | reports exactly the comments of the shared reading, each with the scanner's own place, kind and text |
| CommentLexers.ReportsAreTheComments | tools/comment-audit/sweep.py:132-180 | one report for each comment, in order, and none besides |
| CommentLexers.ReportedPlaceIs | tools/comment-audit/sweep.py:123-130 | a reported line is right exactly when no char literal before it spans a newline, a column exactly when the newline before it is in none |
| CommentLexers.ReportedPlaceIsWrong | tools/comment-audit/sweep.py:123-130 | a source whose one comment, behind a char literal that holds a newline, is reported a line early and at the wrong column |
| CommentLexers.Residue | tools/comment-audit/invariance.py:30-106 | keeps code, collapsed, and literals verbatim, by the same shared reading |
| CommentLexers.ResidueIsSpelled | tools/comment-audit/invariance.py:30-106 | the residue spells the gist: the literals in order, each with the code before it, up to comments and whitespace |
| CommentLexers.PassMeansSameGist | tools/comment-audit/invariance.py:1-18 | from a source with no NUL in code or literals, one of equal residue has the same literals in order and the same code between them exactly when it has no NUL there either |
| CommentLexers.PassMeansSameGistWhen | tools/comment-audit/invariance.py:1-18 | any two sources of equal residue, NULs or not, have the same literals in order and the same code between them exactly when those pieces are as many and as long |
| CommentLexers.SameGistPasses | tools/comment-audit/invariance.py:1-18 | sources of one gist compare equal |
| CommentLexers.NulsSpellALiteral | tools/comment-audit/invariance.py:30-106 | two sources, one with NULs, that compare equal with different literals |
| CommentLexers.OnlyCommentsAreDropped | tools/comment-audit/invariance.py:82-100 | scans with the same marks (code and literals as they stand, a gap for each block comment, nothing for a line comment) have one residue: what is dropped lies within the spans the other scanner reports |
| CommentEdits.LineCommentEdited | tools/comment-audit/invariance.py:1-18 | in any source, any line comment the scan finds rewritten as another in the text, or deleted from it where no lone tick before it and newline and tick behind it are left, leaves gist and residue alone |
| CommentEdits.BlockCommentEdited | tools/comment-audit/invariance.py:1-18 | in any source, any block comment the scan finds rewritten in the text as another closed one, nested or not, leaves gist and residue alone |
| CommentEdits.LineCommentDeleted | tools/comment-audit/invariance.py:1-18 | deleting a found line comment from the text of a source without a NUL compares equal exactly when that is not so, where a space is whitespace and a tick is none |
| CommentLexers.Compare | tools/comment-audit/invariance.py:109-116 | passes exactly when the residues are equal, and for sources without a NUL exactly when the gists are |
| MountTable.IncrementalIsGlobal | crates/config/src/mount.rs:611-787 | each entry clearing the earlier ones is the whole rule: admitted, pairwise distinct, unnested and differently named vaults, declarations agreeing |
| MountTable.CheckUniqueness | crates/config/src/mount.rs:727-787 | the first clash in table order, by path, then nesting, then vault, unresolvable rows skipped |
| MountTable.BindOne | crates/config/src/mount.rs:623-722 | the entry's offense in the checks' order, or its row with its state |
| MountTable.Bind | crates/config/src/mount.rs:611-621 | succeeds exactly when the whole rule holds, with every row; else refuses for the first offending entry in file order |
| MountTable.AppendImplicitDefault | crates/config/src/mount.rs:566-598 | appended exactly when its spelling is unclaimed and it binds clean; declared rows untouched, the table's promises kept |
| MountTable.BoundIsSound | crates/config/src/mount.rs:611-722 | a bound table's resolvable rows are pairwise apart and every declared name read is the bound one |
| MountTable.PathIsAKey | crates/config/src/mount.rs:448-463 | a path finds its own mount and no other, and a vault name too where every root resolves |
| MountTable.CheckAliasUniqueness | crates/config/src/lib.rs:686-718 | passes exactly when aliases are distinct and none is a name; else the first that is not |
| MountTable.DefaultKeepsNames | crates/config/src/mount.rs:567-572 | the implicit default's name keeps the names and aliases distinct |
| MountTable.Projection | crates/config/src/mount.rs:488-527 | the projected set holds exactly the bound names, the refusing roots with their paths, the aliases and the bound vaults |
| MountTable.ProjectionAgrees | crates/addr/src/lib.rs:492-559 | for every spelling: same canonical name as the table, bound exactly when that mount is, unreachable exactly when it refuses, at its declared path |
| MountTable.BoundOrUnreachable | crates/addr/src/lib.rs:456-477 | no name of the projection is both bound and unreachable |
| BlockGrammar.PassesWhenIncreasing | crates/config/src/lib.rs:998-1051 | one more field passes exactly when the places stay strictly increasing |
| BlockGrammar.Fields.Record | crates/config/src/lib.rs:998-1051 | takes the field, or gives the unknown, duplicate or out-of-order reason with the line it points at |
| BlockGrammar.Fields.Get | crates/config/src/lib.rs:1053-1058 | the taken field of that key |
| BlockGrammar.BodyPassesWhenIncreasing | crates/config/src/lib.rs:1133-1136 | a body of field lines passes exactly when its fields' places strictly increase |
| BlockGrammar.ParseMount | crates/config/src/lib.rs:1128-1195 | the entry, or the first fault in the source's order |
| BlockGrammar.ParseTool | crates/config/src/lib.rs:1278-1333 | the declaration with its payload, or the first fault |
| BlockGrammar.PrintedReads | crates/config/src/lib.rs:1087-1109 | fields printed in canonical order read back, trailing whitespace aside, for any subset of them |
| BlockGrammar.MountComesBack | crates/config/src/lib.rs:1128-1195 | printing an entry as text and parsing the lines of that text gives it back exactly when the entry is legal: names in the charset, values trimmed, not blank and on one line |
| BlockGrammar.ToolComesBack | crates/config/src/lib.rs:1278-1333 | printing a tool as text and parsing the lines of that text gives it back, payload verbatim, exactly when it is legal: names in the charset, a payload of indented terminated lines with no carriage return before a newline |
| BlockGrammar.ParsedToolIsLegal | crates/config/src/lib.rs:1297-1323 | whatever parses has legal names and a payload of indented lines |
| BlockGrammar.ConfigIsKeptWhen | crates/config/src/lib.rs:271-273 | for every block that parses: there is a payload exactly when some line is the bare marker, and exactly when the block declares a config unless it has no marker and its last line is a config field |
| BlockGrammar.InlineConfigIsDropped | crates/config/src/lib.rs:1286-1296 | a value on the config line itself parses and is lost, for every legal tool and value |
| DependencyClosure.Resolve | crates/parse-cache/generation.rs:34-54 | the one matching package, or none exactly when there is not one |
| DependencyClosure.Closure | crates/parse-cache/generation.rs:10-56 | terminates with the least set over the roots closed under resolved dependencies; refuses as ambiguous only when no such set exists |
| DependencyClosure.Select | crates/parse-cache/generation.rs:57-78 | the external members' identities sorted, refused exactly when a local member is not a root |
| DependencyClosure.DependencyBytes | crates/parse-cache/generation.rs:7-80 | the one sequence of bytes the table yields (the sorted, joined identities of its closure), or none exactly when it yields none, each failure where the source asserts |
| DependencyClosure.OrderedIsUnique | crates/parse-cache/generation.rs:78-79 | sorting by bytes leaves one order |
| DependencyClosure.SameBytes | crates/parse-cache/generation.rs:68-79 | tables whose closures correspond yield the same: one run succeeds exactly when the other does, with the same bytes |
| DependencyClosure.UnrelatedChangesKeepBytes | crates/parse-cache/generation.rs:1-2 | adding packages and respelling qualifiers keeps the bytes, and whether there are any, while members resolve to the same members |
| DependencyClosure.ReorderingKeepsBytes | crates/parse-cache/generation.rs:68-79 | reordering the package table, any table, keeps the bytes and whether there are any |
| PinPlane.GroupPin | crates/check/src/layer0.rs:349-398 | routes one pin to its owner's list once, states an unmounted one, or leaves the plane unread |
| PinPlane.ObjectsIn | crates/check/src/layer0.rs:339-402 | every askable pin once in its own store's list and every unmounted one stated, or refuses exactly when some pin is no address or has no object id |
| PinPlane.PinPlane.SortPins | crates/check/src/layer0.rs:270-281 | rows by colour, in order |
| PinPlane.PinPlane.AskStore | crates/check/src/layer0.rs:415-461 | counts every entry once and lists exactly the orphans; a store that refuses changes nothing |
| PinPlane.ColoursPartition | crates/check/src/layer0.rs:270-281 | red, grey, unattested and green rows split the pins among them |
| PinPlane.ReadPinPlane | crates/check/src/layer0.rs:252-303 | unanswerable exactly when a pin or a store was; counts equal the distinct askable triples when nothing was; orphans empty exactly when no answered object is orphaned |
| PinPlane.NoFalseGreen | crates/check/src/layer0.rs:225-232 | green means every declared pin is stated as unmounted, or its own store answered and it is anchored or still hashes; and every row is green or listed as out of the hash domain |
| PinPlane.GreenExactlyWhen | crates/check/src/layer0.rs:225-232 | green exactly when every page is whole (its pins are addresses, the askable ones with object ids), every askable pin's store answered and the object is not orphaned, and no row is red or gating grey |
| Bytes.ParseUnsignedDecimal | crates/fs/src/checkpoint.rs:443-446 | a printed decimal reads back within its width, and beyond it refuses |
| Bytes.ParsePrintedHex | crates/fs/src/checkpoint.rs:448-470 | 32 bytes print as 64 lower-case digits and read back |
| Stat.ParsePrintedKey | crates/fs/src/digestmemo.rs:149-154 | a printed stat key reads back with the rest of its line |

## Left out

- Fence.Workspace.Activate: the open-then-late-flock window named at crates/fs/src/fence.rs:46-56; `acquire` is one step, and a lock that is held is met only in `FenceRuns`.
- FenceRuns.EveryRunIsCertified: what lies behind a symlink that is not the fence's; opening through one is an I/O failure. The marker and link texts are compared to one constant each, so only equality to it is modelled.
- FenceRuns.DurableWhen: partial effects inside one system call, except the marker write, `create_dir_all` and the open, whose partial effects are events.
- Sentinel.LockedDrawer.RegisterLocked: `fsync`, file modes and machine crashes; only process deaths and interleavings are modelled, and removal of the drawer (GC) is not.
- SentinelRuns.RegistrarsConverge: a sentinel of a newer schema, under which a registration returns an unpersisted record of its own, as the source documents.
- Checkpoint.RoundTrip: the radix tree itself; the law-2 root is a function of the leaf map, and blake3 is any function. Rows come in the map's iteration order, as a list.
- DigestMemos.RoundTrip: path prefixes of other systems (drive letters); a path is a sequence of bytes with `/` between its components.
- StoredUri.EncodeDecoded: holds for every accepted URI that is not a caret heading; the false half is part of the statement.
- Address.SeparatorMeansRootedOrRefused: Unicode trimming is a parameter.
- ArmedDigest.DigestIsTheArmedSet: asks that the hash not collide on the two forms at hand; JSON strings are UTF-8 bytes.
- Replay.ReplayLaw: the Starlark evaluator, its heap and tick meters (a count of actions stands for the meter), wall time and telemetry, and effects-mode runs, which replay refuses; read and arm sites are given by the strategy.
- NestingGuard.PrintedIsRead: one printed spelling, a space after each lexeme; `NestingGuard.AcceptedHeight` covers every source with the same tokens.
- ReadBound.UndisturbedIsIntact: one way only. Whether a write in place runs and meets the face depends on branches, on what a call does and on which object it reaches, so for many programs neither answer follows from the text; `ReadBound.StruckIsWritten` is the other half where a top-level statement writes into the name itself.
- ReadBound.CaptureHidesNothing: an expression is the names it uses and whether anything it does may write in place, a call of a plain identifier also its callee; a face is one object with its parts, and a write counts whatever it writes. Names that are neither the module's nor an input's are builtins, and lead to nothing that can be written; comprehension variables do not bind module names.
- CommentLexers.LexComments: the grouping of comments into blocks, the lexicon and git blame; which characters are alphanumeric or whitespace is a parameter.
- CommentEdits.BlockCommentEdited: deleting a block comment, which is a gap between tokens and by the gate's own word a change of code; and several edits at once, which are edits one after another.
- MountTable.Bind: refusal wording and line numbers; canonicalization, the deny ceiling, declarations and pin verdicts are functions of the path.
- MountTable.AppendImplicitDefault: the blank-`HOME` filter; `home` is the value that passed it.
- BlockGrammar.ParseMount: block extraction from Markdown, frontmatter, and the duplicate-name and primary-designation checks across blocks.
- DependencyClosure.Resolve: splitting a dependency's text at whitespace and parentheses; a dependency is its name, version and source.
- PinPlane.ReadPinPlane: the order of roots and the wording of a refusal; git answers one line per object, as `object_info` enforces.
- The Starlark and Markdown parsers, YAML, git and hashing: foreign code.
- The cache sweep (`crates/cache/src/sweep.rs`): it classifies before it locks, and its accounting alone is easy.
- `crates/config/src/bridge.rs`, `crates/check/src/layer1.rs`, `crates/effects/src/trace.rs`: short case splits that would add only easy members.
