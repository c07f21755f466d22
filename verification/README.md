# WaveFlow Server: the protocols under its media, keys and releases

Self-contained Dafny 4.11 proofs about the parts of WaveFlow Server that hold
real protocols, loops or arithmetic. `dafny verify dfyconfig.toml` checks all of
it.

* **The transcode cache** (`Decimal`, `Text`, `CacheNames`, `TranscodeCache`,
  `TranscodeProtocol`, `TranscodeTasks`, `TranscodeAccounts`,
  `TranscodeInvariant`, `TranscodeTheorems`, `TranscodeHistory`,
  `TranscodeOutcomes`). `TranscodeCache.MediaInner` is the
  shared state, a class whose methods are the atomic operations, each proved to
  be a function on values (`Ledger`, `Disk`). `TranscodeProtocol` runs live
  streams, probe encodes and background fills over the same functions, and
  `TranscodeTasks.Settle` performs each of its steps on the shared state by
  calling those methods. Any number of tasks run at once, one event per await
  point or guard drop, with encoders that fail, listeners that leave, commits
  that fail and waits that are cancelled. `Leads` is a run, `Reachable` a state
  some run leads to. `TranscodeAccounts` and `TranscodeInvariant` carry the
  invariant; `TranscodeTheorems` is what follows. `TranscodeHistory` and
  `TranscodeOutcomes` read off the events alone what was found, written, sent and
  committed, and how each task must end, and prove every state to be just that.
* **Ranges and routes** (`RangeHeaders`, `ByteRanges`, `PlaybackRoute`,
  `PlaybackTasks`). Header text down to the characters against a grammar stated
  apart from its reader, the bytes sent for it, the same text answered cold and
  warm, and the tasks a request sets going.
* **Pruning** (`PruneCache`), with any pattern of failed removals.
* **Replacing the instance key** (`KeyChange`, `KeyCommand`). A directory is what
  was last synced and the operations since, any subset of which may have reached
  the disk when the machine stops; a file's bytes count only once synced; a
  committed transaction may or may not be there until the connection closes.
* **The audio measurement** (`AudioMeter`, `Spectrum`).
* **Versions and the forward-only manifest** (`Semver`, `Manifest`), with
  precedence after section 11 of Semantic Versioning 2.0.0.
* **The artwork sweep** (`ArtworkStore`, `ArtworkRace`), **credential chains**
  (`Authority`) and **track number gaps** (`TrackGaps`).

What is taken as given: a semaphore and one entry of the concurrent map are
atomic; staging names are unique; a rename is atomic; the digest is
hexadecimal text and no two inputs share one (`CacheNames.CollisionFree`); an
encoder that exits successfully has written its whole output
(`Config.whole`); `create_instance_key` leaves durable bytes and an error from
`rekey` means no commit; turning decibels to power and back, and taking a
difference, are off by less than a sixteenth of a decibel (`Spectrum.Lawful`).

Where the code falls short of what one would like, the model keeps the code and
the condition is exact:

* A seek's key outlives its tasks exactly when the last thing done to it was a
  wait that was cancelled (`SeekKeyLeftIffAbandoned`, and a run in
  `ACancelledWaitLeavesItsKey`).
* Replacing a key is safe at every stop exactly as `SafeIffGuarded` says:
  rotation where directories can be synced, and elsewhere until the commit
  (`RotationIsSafeIff`); adoption once the commit has settled
  (`AdoptionIsSafeIff`). The recovery pair and the staged key are there at every
  stop exactly where directories sync (`PairIsKeptIff`, `NewKeyIsThereIff`).
  `sync_directory` says as much of Windows.
* The one-hour grace protects fresh artwork exactly when it outlasts the longest
  write-to-commit gap and the longest pass together (`GraceProtectsIff`), and a
  re-encountered old file is the only live one a pass can take
  (`LostOnlyWhenMetAgain`).

Two boundaries of the arithmetic lie outside what the code can be given, and are
stated for completeness only: `RangeHeaders.InsideIffUnwrapped`, past any size
a file can have, and `Spectrum.GivesUpFirstIff`, below any timeout that can be
set.

## Model

| member | source | states |
|---|---|---|
| CacheNames.KeyNamesItsJob | src/media/transcode.rs:539-564 | Equal cache keys mean equal source, format, bit rate, gain and offset, whole encodes and seeks alike |
| CacheNames.FileNamesItsJob | src/media/stream.rs:111-134 | Equal final file names mean the same encode |
| CacheNames.SeekTextIsNoWholeText | src/media/transcode.rs:557-564 | No seek's key text is the key text of a whole encode |
| CacheNames.OnlyStagingNamesArePartial | src/media/transcode.rs:525-537 | The pruning pass's marker is in every staging name and in no final name |
| CacheNames.NamesRoundTrip | src/media/mod.rs:140-155 | A format is named back from its name and from no other text |
| TranscodeCache.MediaInner.LockOf | src/media/transcode.rs:199-204 | Asking for a key's lock makes an entry when there is none and adds one reference, by the function the protocol steps with |
| TranscodeCache.MediaInner.DropHeldKey | src/media/transcode.rs:474-489 | The guard, its reference, then an entry nobody shares: the three states of the shared tables, in that order |
| TranscodeCache.MediaInner.AskListenerSlots | src/media/transcode.rs:230-249 | Takes the server's slot, then the account's, and hands the first back if the second is refused |
| TranscodeCache.MediaInner.TakeFillSlot | src/media/transcode.rs:141-147 | Two permits at once and one handed back, or none |
| TranscodeCache.MediaInner.ClaimFill | src/media/transcode.rs:130-139 | The first to ask for a key's fill is told so, and its claim recorded |
| TranscodeCache.MediaInner.FinishFill | src/media/transcode.rs:154-163 | A fill's end returns its claim, then its slot, then its count: the three states, in that order |
| TranscodeCache.MediaInner.Commit | src/media/transcode.rs:447-457 | A commit moves exactly the staged bytes under the final name |
| TranscodeTasks.Settle | src/media/transcode.rs:120-489 | Every step of every task on the shared counters and tables is calls on `MediaInner` that move it exactly as the protocol says |
| TranscodeTasks.AskingIsSteps | src/media/transcode.rs:230-249 | A listener asking for its slots goes through the protocol's steps, taking and giving back included, and ends where `ListenerSlots` says |
| TranscodeTasks.FillEndsInOrder | src/media/transcode.rs:152-163 | The protocol's release of a fill goes through the states its guards leave, the count last |
| TranscodeTasks.HeldKeyDropsInOrder | src/media/transcode.rs:480-489 | The protocol's release of a probe's key goes through the states its guard leaves |
| TranscodeInvariant.EveryStateKeepsInv | src/media/transcode.rs:120-467 | Every event of every run keeps slots, reference counts, locks, claims, counts, staged bytes and committed files consistent |
| TranscodeTheorems.OneLockPerKey | src/media/transcode.rs:199-210 | All who wait on or hold a key refer to the one lock the map holds for it, and one of them at most holds it |
| TranscodeTheorems.LockedEncodesNeverOverlap | src/media/transcode.rs:174-227 | Two probe encodes, or two plays from the first byte, of one key never run at once |
| TranscodeTheorems.OneFillPerKey | src/media/transcode.rs:120-163 | At most one fill of a key is claimed at any time |
| TranscodeTheorems.SeekKeyLeftIffAbandoned | src/media/transcode.rs:466-489 | When all tasks have ended a seek's key is in the lock map exactly if a cancelled wait was the last thing to happen to it |
| TranscodeTheorems.SeekKeyIsAttended | src/media/transcode.rs:180-186 | In every state of a run without a cancelled wait, a seek's key is in the map only while some task waits on, holds or refers to its lock or is about to check it |
| TranscodeTheorems.NoSeekKeyLeft | src/media/transcode.rs:466-489 | With no wait cancelled, no seek leaves a key behind: committed, failed or refused |
| TranscodeTheorems.ACancelledWaitLeavesItsKey | src/media/transcode.rs:199-208 | A run in which a request dropped while waiting leaves its key, for every seek, limit and digest |
| TranscodeTheorems.SlotsAreConserved | src/media/transcode.rs:230-249 | Every permit is free or held, no account holds more than its limit, and all come back when tasks end |
| TranscodeTheorems.RefusedListenerHoldsNoSlot | src/media/transcode.rs:230-249 | In every run a stream or probe on its way out without a counted encode, whichever slot it was refused, holds neither |
| TranscodeTheorems.FillsLeaveOneSlot | src/media/transcode.rs:108-147 | In every run fills hold at most all slots but one |
| TranscodeTheorems.CountedToTheEnd | src/media/transcode.rs:152-163 | A fill or probe once counted stays counted until it has ended |
| TranscodeTheorems.NoCountNothingHeld | src/media/transcode.rs:154-163 | At an active count of zero every fill and probe that started holds no slot, lock, reference or claim |
| TranscodeTheorems.CommittedFilesAreWhole | src/media/transcode.rs:407-464 | Every file under a final name is the whole output of one successful encode of exactly what the name stands for |
| TranscodeTheorems.OpenedFilesAreTheirs | src/media/transcode.rs:211-227 | Whatever file a task holds is a whole encode of its own job, whoever made it and even if pruned since |
| TranscodeTheorems.LiveCommitIsWhatWasSent | src/media/transcode.rs:277-375 | A live stream that commits has cached exactly the bytes it sent, and they are a whole encode |
| TranscodeHistory.HoldsWhatItFound | src/media/transcode.rs:447-463 | In every run every task holds exactly the bytes that were under its own name when it last looked there or opened it |
| TranscodeHistory.StaysInHand | src/media/transcode.rs:211-227 | What a task was handed it keeps to the end, whatever is pruned or committed over it |
| TranscodeHistory.CommittedIsOpened | src/media/transcode.rs:453-463 | A probe or fill that commits, and whose name no pass takes before it opens it, holds exactly the bytes under that name from then on |
| TranscodeHistory.CacheIsWhatWasCommitted | src/media/transcode.rs:297-375 | In every run the cache is exactly, under each name, what its last committer wrote or sent, less what passes took since |
| TranscodeOutcomes.EveryTaskMeetsItsFate | src/media/transcode.rs:120-249 | A task starts its encode exactly when nothing stopped it; one that ends without was refused by a spent count, served from the cache, forestalled by another fill, or gave up |
| TranscodeOutcomes.EncodeEndsWithItsFile | src/media/transcode.rs:407-464 | A probe or fill done after its encoder succeeded holds a file exactly unless its commit failed or the name was gone when it opened it |
| TranscodeOutcomes.StreamEndsInTheCache | src/media/transcode.rs:277-375 | A stream done after its encoder succeeded has committed exactly if it had a staging file and neither a write nor the commit failed |
| TranscodeOutcomes.StreamSendsAllItReads | src/media/transcode.rs:299-335 | A stream sends each chunk before it reads the next, and all it read once its encoder exited |
| TranscodeOutcomes.EncodesEndForAReason | src/media/transcode.rs:277-464 | An encode that started is over only because its encoder exited, it had no file to write, or its listener left |
| TranscodeOutcomes.EveryTaskGoesOn | src/media/transcode.rs:120-489 | No task goes round in circles: at most nineteen steps besides its encoder's writes and three a chunk |
| TranscodeOutcomes.SomeoneCanGoOn | src/media/transcode.rs:199-210 | While a task is not done, some task can take a step of its own: waiting for locks never stops everyone |
| TranscodeOutcomes.HistoriesAreTrue | src/media/transcode.rs:466-489 | Which tasks ran and which keys were given up last, as the state remembers them, is what the events say |
| RangeHeaders.AcceptedColdIsSatisfiableWarm | src/media/stream.rs:703-755 | For every header and non-zero size, a range the cold path takes as opening the resource is answered from byte 0 once cached, up to the end it names |
| RangeHeaders.BoundedStartNamesItsEnd | src/media/stream.rs:716-721 | A bounded start is asked for exactly when an opening range names a non-blank end |
| RangeHeaders.AnsweredAsSelected | src/media/stream.rs:723-755 | A printed range is answered exactly when it selects a byte, and by the longest run of its selection that 8 MiB allow |
| RangeHeaders.AnsweredIffSpelled | src/media/stream.rs:723-755 | Every header is answered exactly when it spells a range, by a grammar of its own, that selects a byte, and by the longest run 8 MiB allow |
| RangeHeaders.SpelledIsWellFormed | src/media/stream.rs:727-745 | No header without the prefix, with a comma, without a hyphen or with a bound that is no number spells a range |
| RangeHeaders.OpeningIffSpelled | src/media/stream.rs:703-721 | A header opens the resource exactly when it spells a range from byte 0, and asks for a bounded start exactly when that range has an end |
| RangeHeaders.PrintedRangeIsAnswered | src/media/stream.rs:723-755 | Parsing a printed header gives back the answer computed from its numbers, for all three forms |
| RangeHeaders.EveryAnswerIsInside | src/media/stream.rs:723-755 | Every answer lies in the file and within 8 MiB, for every header and every size a file can have |
| ByteRanges.OpenFile.ServeOpened | src/media/stream.rs:621-657 | A file just opened is sent whole exactly when no range is named; otherwise in part, by the longest run 8 MiB allow, exactly when the header spells a range that selects a byte, and refused with its size when not |
| ByteRanges.SpelledIsServed | src/media/stream.rs:621-657 | A header that spells a range is answered with the longest run of its bytes, or refused with the file's size when it selects none |
| ByteRanges.PrintedIsServed | src/media/stream.rs:621-657 | The same of every range a client prints |
| ByteRanges.OpenFile.ServePartial | src/media/stream.rs:659-690 | The part sent is exactly the bytes from start to end, both included, with the range printed |
| ByteRanges.ContentRangeIsReadBack | src/media/stream.rs:684-688 | A client reads start, end and size back out of the printed answer |
| ByteRanges.ResumingRebuildsTheFile | src/media/stream.rs:621-755 | Asking for the rest after each answered end, a client is sent the file byte for byte in exactly ceil(size / 8 MiB) requests, printing and parsing included |
| PlaybackRoute.ProbedIffBounded | src/media/stream.rs:155-174 | A seek is encoded whole first exactly when it is playable, not cached, and its header spells a range from byte 0 with an end |
| PlaybackRoute.AdmittedColdIsAnsweredWarm | src/media/stream.rs:117-238 | Cold, a playable request is served if cached, let through if it opens the resource and refused its range if not; one let through is sent the file from its first byte once there is one |
| PlaybackRoute.InvalidIff | src/media/stream.rs:86-110 | A request is invalid exactly when it asks for the original cut or at a rate, or for an encode at a rate out of bounds or past the end; the original is sent exactly when asked for as it is |
| PlaybackRoute.RoutedAsAsked | src/media/stream.rs:107-238 | What is encoded or served is that track in that format, rate, gain and offset; plays wait for their lock and seeks are streamed or probed |
| PlaybackTasks.RoutesBeginTasks | src/media/stream.rs:155-238 | Every route that encodes begins a task of the cache protocol for that very job, and behind a seek the fill is of the whole track |
| PlaybackRoute.OneFileOneEncode | src/media/stream.rs:69-125 | Two requests handed one cached file asked for the same encode, gain included |
| PruneCache.MediaCache.Collect | src/media/transcode.rs:588-613 | Finds every committed file of the listing with its last use, and their saturated total |
| PruneCache.MediaCache.Prune | src/media/transcode.rs:584-629 | Takes committed files only and none that refuses, ends in budget or with nothing left to take, leaves none that would go and was used earlier than one it took, takes one that was needed, and forgets exactly the uses of what it took |
| PruneCache.MediaCache.RemoveUntilInBudget | src/media/transcode.rs:615-622 | Stops at the first try from which the count is in budget, having removed exactly the tried files that did not refuse |
| PruneCache.SortIsStable | src/media/transcode.rs:614 | The order is by last use, a permutation, and keeps the listing's order among equals |
| PruneCache.RemainingIsKept | src/media/transcode.rs:605-622 | The running count is the true size left when the sum fits 64 bits, and never more than it otherwise |
| PruneCache.PrunedToBudget | src/media/transcode.rs:584-629 | The pass ends in budget or with every file tried, was over budget at each try, and left untried nothing older than a tried file |
| PruneCache.LastRemovalWasNeeded | src/media/transcode.rs:615-622 | With the last removed file put back the directory is over budget, whichever removals failed |
| PruneCache.StagingIsNeverTouched | src/media/transcode.rs:592-598 | No staging file is ever removed |
| PruneCache.CommittedFilesAreCandidates | src/media/transcode.rs:592-612 | Every committed file of the listing can be pruned |
| KeyChange.KeyHeldWhenever | src/cli/key.rs:262-376 | At every stop of every run on any host, the surviving database's key is in a durable file exactly when it is bound to none, to the new key and a name leads to it, or was found with its key; where directories sync a name does |
| KeyChange.SafeIffGuarded | src/cli/key.rs:71-376 | Every stop is safe exactly if: before the commit, the key was not lost; from it on, directories sync, and a lost key's database has settled |
| KeyChange.AdoptionIsSafeIff | src/cli/key.rs:108-139 | Adopting a database whose key is lost is safe at every stop exactly once the commit has settled where directories sync, and at one stop exactly if the commit and a name for its key survive |
| KeyChange.PairIsKeptIff | src/cli/key.rs:262-297 | From the commit on, the previous pair is whole in the recovery directory at every stop exactly where directories sync |
| KeyChange.EndsAsReported | src/cli/key.rs:328-376 | On any host a refusal leaves the pair it found, an unfinished change and a complete one a database bound to the new key, in place once the directory synced |
| KeyChange.NewKeyIsThereIff | src/cli/key.rs:340-374 | The staged key is where an unfinished change says, at every stop, exactly where directories sync; a complete one has it in place, at every stop, exactly once the last sync went through |
| KeyChange.EndsAsItMust | src/cli/key.rs:268-376 | Every command ends within thirteen steps: complete when nothing fails up to the rename, unfinished when the first failure is after the commit, refused when it is before |
| KeyChange.StagedKeyIsTakenAway | src/cli/key.rs:336-341 | Refused because the database would not be rebound, a command leaves its staged key named only if taking it away fails |
| KeyChange.RotationIsSafeIff | src/cli/key.rs:237-260 | Every stop is safe where directories sync, and elsewhere exactly until the commit |
| KeyCommand.Command.CopyThePairAside | src/cli/key.rs:268-297 | Succeeds exactly when none of its steps fails, the key's only where there is a key file, over a disk that is the run's |
| KeyCommand.Command.InstallNewKey | src/cli/key.rs:305-376 | Ends refused when staging, syncing or rebinding fails, unfinished when closing or renaming does, and complete otherwise, over a disk that is the run's |
| KeyCommand.Command.RotateKey | src/cli/key.rs:71-106 | Refuses without touching anything unless the key matches and is confirmed; otherwise ends in the one end its failures leave, and every disk on the way is safe exactly as far as RotationIsSafeIff says |
| KeyCommand.Command.AdoptKey | src/cli/key.rs:108-139 | Refuses a database whose key is beside it; otherwise ends in the one end its failures leave, and every disk on the way is safe exactly when guarded, on any host, whether or not the database records a key |
| AudioMeter.Accumulator.Run | src/quality/mod.rs:278-302 | However the stream is cut, the frames, the OR and the count are those of the concatenation decoded whole, only a partial frame is left unread, and of encoded samples frame i carries on channel k sample i * channels + k, sign and order kept |
| AudioMeter.Accumulator.IntoMeasurement | src/quality/mod.rs:304-325 | The depth reported for what was measured is the least that fits every sample, and of encoded samples the least whose multiples they are |
| AudioMeter.FramesOfSum | src/quality/mod.rs:285-300 | Frames of whole frames and of what follows them are the frames of both together |
| AudioMeter.SamplesAreReadBack | src/quality/mod.rs:289-291 | Every signed 32-bit sample is read back from its little-endian bytes |
| AudioMeter.FramesAreSamples | src/quality/mod.rs:285-298 | Decoding encoded samples gives each back in its frame and on its channel |
| AudioMeter.ChunksFollow | src/quality/mod.rs:284-286 | Chunks follow one another in the stream, each whole and in order |
| AudioMeter.OrSetsBits | src/quality/mod.rs:291 | The OR sets exactly the bits either side sets |
| AudioMeter.HalvesIsMultiple | src/quality/mod.rs:318-325 | Halving k times without remainder, which is how a depth is stated, is being a multiple of 2^k |
| AudioMeter.EffectiveBitsIsTheDepth | src/quality/mod.rs:318-325 | The depth is the least b for which every sample is a multiple of 2^(32-b), and absent exactly for a floating-point source or an all-zero one |
| Spectrum.BandIsInside | src/quality/mod.rs:331-336 | No band is empty or out of bounds |
| Spectrum.PartitionIffEnoughBins | src/quality/mod.rs:331-336 | The bands share out the bins exactly when there are at least 256 |
| Spectrum.BandsAreEven | src/quality/mod.rs:334-335 | The parts differ by at most one bin |
| Spectrum.LevelIsMeanPower | src/quality/mod.rs:336-337 | Over the reals a band's level is its mean power: taken once a bin, it is the power of its bins |
| Spectrum.BandsKeepThePower | src/quality/mod.rs:331-339 | Over the reals the bands together keep the power of the spectrum, none lost and none counted twice |
| Spectrum.LevelIsBetween | src/quality/mod.rs:336-337 | Over the reals, a band's level lies between its quietest and its loudest bin |
| Spectrum.StoredReadsBack | src/quality/mod.rs:340-350 | A stored level reads back within 0.25 dB down to 127.75 dB under the loudest, but for the rounding of one difference; exactly there when that is none |
| Spectrum.LoudestIsZero | src/quality/mod.rs:340-344 | Steps are 0 to 255 and the loudest band is stored as 0 |
| Spectrum.RequantisingIsIdentity | src/quality/mod.rs:330-350 | Reading back and storing again changes nothing exactly when some band is at 0, with conversions and differences rounded by up to a sixteenth of a decibel |
| Spectrum.StoredIsSettled | src/quality/mod.rs:330-350 | Requantising what was stored from any spectrum is the identity, under the same rounding |
| Spectrum.DrawingGivesUpFirst | src/quality/mod.rs:43-56 | Under every timeout that can be set, at least one second, the drawing gives up strictly first and leaves the request half its time or five seconds |
| Semver.ParsesIffPrinted | scripts/release/channel-manifest.py:25-42 | A text is accepted exactly when it is a version printed, with well-formed pre-release and build identifiers |
| Semver.CompareIsTotal | scripts/release/channel-manifest.py:45-63 | Defined on versions alone, total, antisymmetric in sign, and 0 exactly when numbers and pre-release identifiers agree |
| Semver.CompareIsTransitive | scripts/release/channel-manifest.py:45-63 | Precedence is transitive across numbers, words and shorter lists |
| Semver.ComparesAsTheStandardSays | scripts/release/channel-manifest.py:14-20 | A version compares lower exactly when the rules of section 11, stated on their own, put it before |
| Semver.BuildIsIgnored | scripts/release/channel-manifest.py:14-20 | Build metadata changes no comparison |
| Manifest.PublishesTheLatestMaximum | scripts/release/channel-manifest.py:94-112 | Over every history, what is published is the latest of the highest versions attempted, and nothing only if none was a version |
| Manifest.NeverGoesBack | scripts/release/channel-manifest.py:5-11 | However many runs follow, the published version never decreases |
| Manifest.KeptIffNewer | scripts/release/channel-manifest.py:104-112 | A run keeps the current manifest exactly when its own version is lower, and never fails to read what a channel published |
| ArtworkStore.ClassifyNames | src/services/artwork.rs:285-323 | Covers and thumbnails are recognised by exactly their names |
| ArtworkStore.Store.Sweep | src/services/artwork.rs:148-215 | Exactly the listed files over an hour old that have a cover's or thumbnail's name for a hash no row names, and can be removed, are gone; every count is exact, dead links only reported, also when the listing fails half-way |
| ArtworkStore.Store.DiscardAged | src/services/artwork.rs:261-282 | A file goes exactly if it is there, known to be over an hour old, and removable |
| ArtworkStore.DiscardedIff | src/services/artwork.rs:148-215 | A file a pass meets goes exactly if it has a cover's or thumbnail's name for a hash no row names and is aged and removable |
| ArtworkRace.VisitStore | src/services/artwork.rs:175-200 | A visit of the race is the sweep's own look at a file with its age off the clock: it removes it exactly when the sweep does |
| ArtworkRace.GraceProtectsIff | src/services/artwork.rs:63-69 | No pass in any run takes a freshly written file of a live row exactly when the longest gap and the longest pass together fit the grace |
| ArtworkRace.LostOnlyWhenMetAgain | src/services/artwork.rs:28-57 | A file of a live row is taken only when its row was committed during the pass, long after the file was written |
| Authority.OneAtATimeBoundsTheList | src/services/admin.rs:709-743 | Weighing scopes one at a time accepts exactly the lists granted no level the caller's scopes refuse, an unrestricted request of a restricted caller apart |
| Authority.GrantsAreATable | src/api/access.rs:39-60 | No scopes grant every level, one grants what it names and implies, and a list what its parts do |
| Authority.ChainsNeverWiden | src/api/oauth.rs:51-63 | Along every chain of tokens, codes and sessions no credential is granted a level an ancestor's scopes refuse |
| Authority.SelfMintedNeverOutlives | src/services/admin.rs:344-370 | Along every self-minted chain no deadline is later than an ancestor's |
| Authority.Server.CreateOwnApiToken | src/services/admin.rs:333-412 | Issues exactly for bounded scopes and valid names, in the caller's account, with the sooner of the policy's deadline and the caller's |
| Authority.Server.CreateApiToken | src/services/admin.rs:294-319 | An administrator's token for any account: bounded in scope, without deadline |
| Authority.Server.Authenticated | src/api/access.rs:75-93 | A live credential is admitted exactly when its account and its scopes grant the level, refused otherwise, and nobody else is admitted |
| Authority.Server.Authorize | src/api/oauth.rs:38-69 | Records a code exactly for a bearer that may write and a request that could be redeemed, under exactly that bearer's scopes |
| Authority.Server.Redeem | src/api/oauth.rs:71-103 | Spends a code at its first presentation whatever comes of it; its session carries the grant's scopes, and the device name recorded with the code never fails it |
| Authority.Server.Login | src/auth/authentication.rs:132-226 | A proved password and a valid device name open an unrestricted session of an enabled account |
| Authority.Server.IssueSession | src/auth/authentication.rs:359-406 | A new session carries exactly the scopes it was issued under |
| Authority.Server.Refresh | src/auth/authentication.rs:269-320 | Rotates exactly the live session the secret belongs to, in place and nothing else; both old secrets are nobody's afterwards |
| Authority.Server.Bounded | src/services/admin.rs:326-332 | After any calls, every credential is bounded by every ancestor |
| TrackGaps.GapIffANumberIsMissing | src/services/attention.rs:140-152 | The count finds a gap exactly when some number between two carried ones is carried by no track of the disc, an edit standing before what was read |

## Left out

- HTTP handlers, OpenAPI, configuration, CLI printing and the web client: parameter adapters with no deep state.
- FFmpeg, ffprobe, the FFT, hashing and encryption: an encode is a predicate on bytes, a digest a function; a source file is taken to be what its stored hash names.
- Real path resolution, links and canonicalisation (`secure_track_path`): whether a path resolves is an input of `PlaybackRoute`.
- Staging files are not claimed to be cleaned up: a live stream whose flush or rename fails keeps its own.
- Live streams drop their count before their slots, so the statements on the active count are about fills and probes.
- A listener can be refused in the instant a fill holds two permits; the bound is on fills, not on refusals.
- PruneCache.MediaCache.Prune: reads the access table as it stood when the pass began; other tasks touching it during the pass are not modelled.
- KeyChange: a step that fails is taken to leave the directory as it was; what a half-written recovery copy looks like is not modelled, nor the rows `rekey` rewrites. A key file `rotate` cannot use counts as a mismatch.
- AudioMeter.Accumulator.Run: a sample is pushed as an arbitrary function of its value, so the rounding of the 32-bit float is not modelled.
- Spectrum.LevelIsBetween: over the reals, as are Spectrum.LevelIsMeanPower and Spectrum.BandsKeepThePower; how far rounded sums can take a mean from its bins is not bounded. The other results on levels take each operation as rounded. An empty spectrum, which the source cannot index either, is excluded.
- Semver: the digit limit of Python's `int` on very long numerals is not modelled.
- Manifest: the JSON around the version, and what a manifest edited by hand would do, are not modelled.
- ArtworkStore.Store.Sweep: ages are those of the files when looked at, and the spent portrait searches deleted in the same transaction appear only through the references left.
- Authority: expiry across authorization codes is not bounded by the source and not claimed; an administrator's token for its own account has no deadline, by its contract. Redirect addresses and challenges are judged by given functions; device revocation and rate limiting are not modelled.
- `prune_authorizations`, scrobbling adapters, quality verdicts and duplicate chaining: easy members, or resting on libraries outside the repository.
