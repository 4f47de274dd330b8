# conformist, modelled and verified

conformist formats and lints a tree, repairs what it can, and remembers what it has already done. This project models
the parts of it where a mistake would be silent, and proves what they promise. Every statement is for all inputs, all
runs or all reachable states; tools, git, the network and hashes are arbitrary functions unless a premise says more.

The text is modelled as sequences of bytes or characters, trees and caches as maps, and each thing the source updates in
place as a class or a loop that is proved equal to a specification function; the promises are lemmas about those
functions.

- **Blech32** (`Polymod`, `Checksum`, `Regroup`, `Blech32`, `Vectors`): the checksum step is linear over exclusive or and
  its zero-input step injective, so a change inside six consecutive characters is always detected, in the data and in the
  name; the regrouper on a wrapping 32-bit accumulator computes the regrouping of the bit string; encoder and decoder are
  inverse, so every payload has exactly one accepted spelling; and a pin made by another implementation fixes the
  constants. `Markl` carries this to artifact pins.
- **Format cache** (`Signing`, `Batching`, `Scheduler`, `WriteCache`, `FormatRuns`, `FormatQuiet`): a scheduler that
  gathers files by formatter sequence, and runs as interleaved steps of batches, releases and a cache writer, over any
  sequence of runs. Entries are only ever earned by a completed successful batch, a skipped file has the modification
  second and size it had when such a batch ended, and after an error-free undisturbed run the next one formats nothing.
- **Git transactions** (`Git`, `Staged`, `Commit`): HEAD, index and worktree as three trees with `git status` derived
  from them. The staged run changes the index only where it should; the commit run moves HEAD only on paths that were
  clean and that its tools changed.
- **Codegen convergence** (`Codegen`): the discover, build, apply loop as a session over arbitrary oracles, its bound,
  its give-up bookkeeping and the restoration of the index.
- **Editing and framing** (`Order`, `Decimal`, `Strings`, `Identity`, `Tokens`, `Splicing`, `Rename`, `Clobber`,
  `Migrating`, `Deleting`, `Hosts`): an unambiguous configuration stream, back-to-front splicing as simultaneous
  substitution, whole-token migrations and deletions, and the one line conform owns in the impure overlay.
- **Caches that must agree with the uncached run** (`WholeTree`, `CheckCache`, `Store`): whole-tree checks and the
  content-addressed store of a profile.

`Optional` holds the missing-value type they share.

## What the proofs turned up

- The formatter order subtracts two 64-bit priorities. The order is the documented one exactly when the difference fits
  64 bits (`Batching.ComparisonIsOrder`); `Batching.OverflowReorders` names two priorities that are swapped.
- The whole-tree key is said to change with every change of the configuration. For no linter does it: the directory a
  check runs in is not hashed, so after a clean run in one directory the check is skipped in another one, whatever it
  would report there (`CheckCache.DirectoryHidesEdit`). The rest is framed with NUL bytes: among the linters the program
  loads, equal bytes mean equal up to that directory exactly when no option, include or exclude is the empty string, or an
  empty include is the only include (`WholeTree.ConfigDetermined`). For every other linter
  `CheckCache.EmptyPartHidesEdit` gives one with the same directory and other lists that the program loads and the cache
  takes for the same. Runs agree with uncached ones all the same when no such edit falls between them
  (`CheckCache.ConfiguredRunsAgree`), and for linters without such empty parts `CheckCache.SettledExactly` shows that
  nothing less will do.
- An opt-in linter below the deletion tier is said never to stage deletions. The tier filters what the linter itself
  reports; a path it reports as modified still leaves the index when a later formatter removes it
  (`Staged.DeletionWithoutTierFour`). Without a deletion tier this is the only way, and `Staged.LeavesWithoutTierFour`
  says so exactly: some linter of the run reported the path while it was still there, and a later tool removed it.
- Deleting a list element removes its line when nothing else is on it. Whether anything else is on it is judged after
  taking the name out wherever it occurs, inside other names too: an element that is the name repeated, such as `aa`
  beside `a`, goes with it (`Deleting.DeletionTakesMore`). `Deleting.DeletionRemoves` gives the exact condition.
- The decoder refuses the encoding of an empty payload as too short (`Blech32.EmptyPayloadRefused`), so the round trip
  holds for non-empty payloads.

## Model

| member | source | states |
|---|---|---|
| Polymod.Polymod | profile/blech32.go:59-74 | the loop computes the checksum register after all symbols |
| Polymod.StepLinear | profile/blech32.go:59-74 | one step of the register is linear over exclusive or of states and symbols |
| Checksum.RunLinear | profile/blech32.go:59-74 | so is a whole run, at any length |
| Checksum.RunBound | profile/blech32.go:59-74 | the register stays within 30 bits |
| Checksum.ZeroStepInjective | profile/blech32.go:59-74 | two 30-bit states that a zero symbol takes to the same state are equal |
| Checksum.ZeroRunInjective | profile/blech32.go:59-74 | so are two states that any number of zero symbols takes to the same state |
| Checksum.RunPacks | profile/blech32.go:59-74 | six symbols fed to the zero state are exactly its thirty bits |
| Checksum.BurstDetected | profile/blech32.go:59-74 | two runs whose inputs differ only inside six consecutive symbols end in different states |
| Checksum.CompletionUnique | profile/blech32.go:125-146 | exactly one choice of six checksum symbols brings the register to one |
| Regroup.ConvertBits | profile/blech32.go:92-121 | on a 32-bit accumulator that is never masked, the loop returns the regrouping of the unbounded bit string, and in strict mode refuses exactly when five or more bits or a set bit is left over |
| Regroup.StrictOfPadded | profile/blech32.go:92-121 | strict regrouping of the padded symbols gives back the bytes |
| Regroup.PaddedOfStrict | profile/blech32.go:92-121 | symbols that strict regrouping accepts are the padded symbols of its result |
| Regroup.BitsInjective | profile/blech32.go:92-121 | group sequences with equal bit strings are equal |
| Blech32.ExpandHrp | profile/blech32.go:76-90 | the loops expand the prefix to its high parts, a zero, and its low parts |
| Blech32.Encode | profile/blech32.go:125-146 | the loops return the encoding: prefix, separator, symbols and checksum |
| Blech32.Decode | profile/blech32.go:150-196 | the checks and loops return the decoding or the first error that applies, for any rule of lower-casing |
| Blech32.CasingNamesErrors | profile/blech32.go:150-175 | a lower-casing rule that looks for capitals on ASCII decides nothing but which error a text with other characters gets |
| Blech32.DecodeOfEncode | profile/blech32.go:125-196 | decoding an encoding gives back prefix and payload, for every valid prefix and non-empty payload |
| Blech32.EncodeOfDecode | profile/blech32.go:150-196 | every accepted string is the encoding of what it decodes to |
| Blech32.AcceptedIffEncoded | profile/blech32.go:125-196 | a string decodes to a prefix and payload exactly when it is their encoding |
| Blech32.EmptyPayloadRefused | profile/blech32.go:125-165 | the encoding of an empty payload is refused as too short |
| Blech32.BurstsAreDetected | profile/blech32.go:150-196 | two accepted strings with one prefix and length that differ only inside six consecutive characters are equal |
| Blech32.NameBurstsAreDetected | profile/blech32.go:76-196 | two accepted strings with the same data part are equal when their names have one length and differ only inside six consecutive characters, there only in the upper three bits or only in the lower five: both halves of every character of the name are checked |
| Blech32.SeparatorRefusal | profile/blech32.go:150-165 | a capital letter is what a text is refused for exactly when it holds one, and a missing separator exactly when it has neither |
| Blech32.RefusalReasons | profile/blech32.go:150-187 | an empty name, a short data part, a name outside a-z, 0-9 and underscore, and the first character outside the data alphabet are each the error exactly when they are the first reason that applies |
| Blech32.ChecksumRefusal | profile/blech32.go:188-196 | behind these the checksum is the error exactly when the register does not end at one, and the padding exactly when it does and the string still encodes nothing |
| Vectors.PinDecodes | profile/profile_test.go:20-25 | the sha256 pin made by the other implementation decodes to its digest, and the digest encodes to that pin |
| Markl.AcceptedIffRendered | profile/markl.go:63-112 | a string parses to a pin exactly when it is that pin's rendering, its format is known and its digest has the format's length |
| Markl.PinOfContent | profile/markl.go:56-128 | the pin made of some content renders and parses back, verifies that content and refuses every content with another digest |
| Markl.PinRefusesOther | profile/markl.go:110-128 | a parsed pin verifies content exactly when the pin is the one that content's own digest makes |
| Markl.PinRefusals | profile/markl.go:63-92 | a missing purpose, another purpose, an undecodable rest, an unknown format and a digest of another length are each the error exactly when they are the first reason that applies |
| Markl.DirNameInjective | profile/resolve.go:260-262 | different pins have different cache directories |
| Signing.StoredIsFresh | walk/walk.go:77-140 | whether the stored signature is taken from the first or the fresh stat, it is the signature of the fresh stat |
| Signing.SignatureDetermines | walk/walk.go:54-74 | for formatter digests of one length and texts that do not collide, signatures agree exactly when formatters, modification second and size agree |
| Signing.SecondPrecision | walk/walk.go:54-140 | stamps of one second and one size are the same to the cache and to the change test, all others differ |
| Batching.KeyRoundTrip | format/scheduler.go:37-49 | a batch key splits back into the names it was joined from, whose characters exclude the colon |
| Batching.ComparisonIsOrder | format/scheduler.go:233-245 | subtracting priorities gives the (priority, name) order exactly when the difference fits 64 bits |
| Batching.OverflowReorders | format/scheduler.go:233-245 | two 64-bit priorities that the comparison puts in the wrong order |
| Batching.SequenceIsOrdered | format/scheduler.go:96-99 | with fitting priorities the sequence is the matching formatters in (priority, name) order, whatever order they matched in |
| Batching.HashedIs | format/scheduler.go:66-80 | a sequence can be signed exactly when each of its formatters can be hashed, over their contributions joined in order |
| Batching.HashedCovers | format/scheduler.go:66-80 | with contributions of one length per formatter, two configurations sign a sequence alike exactly when they agree on every formatter of it |
| Batching.PlanCovers | format/scheduler.go:144-158 | every file of a batch goes through exactly the formatters of its sequence, once each and in order |
| Batching.PlanCalls | format/scheduler.go:144-158 | a formatter without support for several files is called once per file in order, any other one once with the whole batch, and the formatters one behind the other |
| Batching.RunBatch | format/scheduler.go:140-161 | the chunking loops make exactly the planned calls, and a batch fails exactly when some call fails |
| Scheduler.AppendConserves | format/scheduler.go:123-131 | accepting a file loses, duplicates and reorders nothing per key, and keeps batches non-empty and within the size |
| Scheduler.Scheduler.FormattersSignature | format/scheduler.go:66-89 | the remembered signature is the one a recomputation from the key gives, and hashing errors are passed on |
| Scheduler.Scheduler.Submit | format/scheduler.go:91-137 | accepts, skips or fails a file as its signatures say, and hands over the batch it completes |
| Scheduler.Scheduler.Close | format/scheduler.go:213-229 | afterwards the batches handed over hold, per key and in order, exactly the accepted files, each batch non-empty and within the size |
| Scheduler.ApplyFiles | format/composite.go:69-121 | in walk order every file is taken by the scheduler or released without touching the cache, up to the first that ends the call, which releases nothing |
| Scheduler.TakenOrReleased | format/composite.go:69-121 | in a call that does not end early the files taken and the files released are together exactly the files given, each once |
| Scheduler.FateReasons | format/composite.go:69-121 | an excluded file is released; an unmatched one is released or ends the call as configured; one that cannot be signed ends it; one whose present signature is cached is released; every other one is taken under its sequence and with that signature |
| WriteCache.LastUpdateWins | walk/cached.go:49-69 | after a flush a path's entry is the signature of its last update |
| WriteCache.FreshIsStored | walk/walk.go:77-140 | whatever a formatter did to a file, the stored signature is that of the stamp the file was left with |
| WriteCache.CachedReader.Transact | walk/cached.go:49-69 | one transaction stores all its updates or none |
| WriteCache.CachedReader.Process | walk/cached.go:45-87 | the drain loop stores all updates in order, or, when a transaction fails, those of the transactions before it: the failing one holds an update without a signature or is refused by the database |
| WriteCache.StoredIsFlush | walk/cached.go:45-87 | storing observed files, with the later stamp set only when it counts as a change, is the flush step of the run model |
| FormatRuns.StepKeeps | format/scheduler.go:107-211 | every step of a run keeps the cache invariant: batch, release and entry evidence |
| FormatRuns.EntriesAreEarned | format/scheduler.go:140-211 | over any runs, interleavings and interruptions, every cache entry was written for a file by a batch that had called every formatter of its sequence on it once, in order and successfully |
| FormatRuns.SkippedWasFormatted | format/scheduler.go:107-121 | with digests of one length and no collision among the texts hashed for the observed files and this one, a skipped file went through the same formatters successfully and has the modification second and size it had when that ended |
| FormatRuns.SkipPremisesMet | format/scheduler.go:107-211 | for every hash with digests of one length, a file formatted once and left alone meets these premises and is skipped |
| FormatRuns.FailedBatchStoresNothing | format/scheduler.go:160-176 | no file of a batch with a failed call is ever logged as observed, which is what entries are earned from |
| FormatRuns.FailedBatchReleasesNothing | format/scheduler.go:160-209 | in a run in which some call of a batch fails, no post of that batch releases its file: queue, pending writes and entries stay as they were |
| FormatRuns.RunFailedIff | format/scheduler.go:91-229 | a run fails exactly when some call fails, a file cannot be signed or stat'ed again, or a transaction is refused; what succeeds later does not undo it |
| FormatQuiet.RunSettles | walk/cached.go:45-87 | after an error-free run over distinct paths with no outside edits, every matched file has the entry a fresh stat gives |
| FormatQuiet.NextRunFormatsNothing | format/scheduler.go:107-121 | the next run with the same formatter signatures accepts no file and changes neither tree nor cache |
| FormatQuiet.QuietPremisesMet | format/scheduler.go:91-211 | whatever the hash, a run that formats a file and a next one that submits it again meet these premises |
| FormatQuiet.StepFollows | format/scheduler.go:91-211 | every step keeps a followed path in exactly one place between walk and cache, with the signature of its current stamp once released |
| Git.CleanAgrees | git/commit.go:39-71 | a path is absent from status exactly when HEAD, index and worktree agree on it |
| Git.StatusIff | git/commit.go:24-71 | the status lists exactly the tracked paths on which HEAD, index and worktree disagree, and, if wanted, the paths only in the worktree that are not ignored |
| Staged.LanesOfStatus | cmd/format/staged.go:103-125 | the lanes are the fully and the partly staged paths of the status, staged deletions being restaged but not formatted |
| Staged.SelectLanes | cmd/format/staged.go:103-125 | the loop sorts the status entries into the lanes |
| Staged.ObserveAllReports | cmd/format/staged.go:246-298 | every collected output is a path that one of this run's opt-in linters reported, by the two snapshots taken around its own repair and within its tiers |
| Staged.ReportsAreCollected | cmd/format/staged.go:246-298 | when no repair fails, every path so reported is collected |
| Staged.NonInterference | cmd/format/staged.go:103-145 | after a successful run, partly staged paths hold the isolated format of their staged blob under their own mode, fully staged ones the worktree's file, and any other path takes the worktree's file exactly when one of this run's linters reported it and there was something to format; HEAD never moves |
| Staged.UnsuccessfulRun | cmd/format/staged.go:55-169 | an unsuccessful run leaves HEAD, and the index too unless the partial lane is what failed |
| Staged.NothingDoneIff | cmd/format/staged.go:76-131 | a run refuses exactly in stdin mode, with fail-on-change or outside a worktree, and has nothing to do exactly when nothing in the index differs from HEAD |
| Staged.FailedIff | cmd/format/staged.go:133-145 | a run with something to do fails exactly when a tool of the full lane fails or a file a linter created is gone before it can be staged, or when the isolated run fails or loses a partly staged blob |
| Staged.SuccessReport | cmd/format/staged.go:133-169 | a successful run leaves the worktree as its tools did, or untouched if no fully staged file is to be formatted, and reports exactly the number of renewed and reformatted paths, as conformant or restaged and with exit code zero if so configured |
| Staged.LeavesIndexIff | cmd/format/staged.go:184-232 | a path leaves the index exactly when it is restaged and gone from the worktree at the end |
| Staged.LeavesWithoutTierFour | cmd/format/staged.go:184-306 | without a linter that stages deletions, a path that was not fully staged leaves the index exactly when a linter of this run reported it while it was in the worktree and a later tool removed it |
| Staged.EntersIndexIff | cmd/format/staged.go:184-306 | a path outside the index enters it exactly when it was not committed, there was something to format, a linter that stages new files created it in this run, and it is still there at the end; so without such a linter none does |
| Staged.DeletionWithoutTierFour | cmd/format/staged.go:246-306 | a run in which a path leaves the index although no linter stages deletions |
| Staged.RunStagedLanes | cmd/format/staged.go:55-169 | the run over a mutable repository is the specified one |
| Staged.ObserveRepair | cmd/format/staged.go:246-298 | the observer's two snapshots and filter give the specified outputs |
| Staged.RestagePartialBlobs | cmd/format/staged.go:313-366 | the loop repoints exactly the changed blobs, keeping their modes |
| Commit.CommitIsolation | cmd/format/commit.go:70-176 | HEAD changes exactly when the run landed, exactly on paths clean before and changed by the tools, to the worktree's file; the index follows there only |
| Commit.PublishedAmendRestores | cmd/format/commit.go:114-128 | a refused published amend puts every path that was clean before back to HEAD in index and worktree |
| Commit.RefusalChangesNothing | cmd/format/commit.go:201-272 | a run is refused exactly in stdin mode, with fail-on-change, outside a worktree, amending without a HEAD, or on an unclean tree that was not allowed, and then changes nothing |
| Commit.OutcomeReasons | cmd/format/commit.go:87-176 | of a run that is not refused: a failed format run, no fixes, a published HEAD with the fixes put back or not, conflict markers, a refused commit and a landed one are each the outcome exactly when they are the first that applies, with the number of fixes |
| Commit.NoHeadNothingToCommit | cmd/format/commit.go:70-176 | without a HEAD commit nothing can land |
| Commit.ToCommitWasClean | cmd/format/commit.go:92-112 | the paths to commit are exactly those clean before and changed after |
| Commit.RunCommitFlow | cmd/format/commit.go:70-176 | the flow over a mutable repository is the specified one |
| Codegen.Session.Pass | cmd/codegen/codegen.go:565-600 | a pass applies at most one patch, that of the first outstanding check, built and applied at a moment of the pass to the world it began with, created files tracked; it is refused only for a check of its list whose patch conflicted with that world; without progress every check is given up or was found up to date in that world during the pass |
| Codegen.Session.Converge | cmd/codegen/codegen.go:443-507 | the loop applies at most two patches per check first discovered and two more, in one discovery more than that; a non-convergence error names exactly that many applied checks in order; a refusal, a failed discovery and an empty one each had their reason in the world the run ended with; on convergence the last discovery was made in the final world and its checks were given up or found up to date there, during the run |
| Codegen.Session.Run | cmd/codegen/codegen.go:387-422 | whatever the exit, the index is restored unless dropping the added entries fails; the log of builds, patches and checks given up is honest and gives the fields and the final world; a refused patch conflicted with that world; on convergence every check of the last discovery was given up or found up to date in that world at a moment of the run |
| Codegen.Session.ApplyPatch | cmd/codegen/codegen.go:708-757 | a patch is current exactly when only the reverse check passes, applied when the forward check and the apply succeed, refused otherwise; an applied one puts exactly the files it created into the index, unless git cannot list or add them |
| Codegen.GivenUpWasHopeless | cmd/codegen/codegen.go:565-611 | every name an honest log gives up belongs to a check that was unusable or whose build had just failed, at a moment of the run and in the world of that moment |
| Codegen.TrackingKeepsRestorable | cmd/codegen/codegen.go:768-810 | recording only new untracked paths keeps the index equal to the starting one plus the recorded entries |
| Codegen.BuildKeepsLog | cmd/codegen/codegen.go:565-624 | an event that does not build a given-up check keeps the log free of rebuilt checks |
| Order.SortedUnique | config/identity.go:91-100 | two sorted listings of the same elements are the same |
| Decimal.ItoaInjective | walk/walk.go:58 | different integers are printed differently |
| Strings.SplitOfJoin | cmd/conform/hosts.go:135-135 | pieces without separators are recovered from their joining |
| Identity.ReadWrite | config/identity.go:76-87 | an independent reader recovers every written field from the stream |
| Identity.StreamInjective | config/identity.go:76-87 | so equal streams come from equal field sequences, whatever bytes the values hold |
| Identity.IdentityInjective | config/identity.go:31-71 | configurations with equal streams agree on walk, excludes, skip-generated and every hashed formatter and linter field |
| Identity.IdentityDeterministic | config/identity.go:31-100 | the stream does not depend on the order the tables are iterated in |
| Identity.WriteIdentity | config/identity.go:31-71 | the loops over sorted keys write that stream |
| Tokens.TokenIndices | cmd/conform/flakeparse/token.go:18-41 | the scan returns every complete-token occurrence |
| Tokens.OccurrencesAreTokens | cmd/conform/flakeparse/token.go:8-41 | these are exactly the complete tokens, in ascending order |
| Tokens.OccurrencesAreWords | cmd/conform/flakeparse/token.go:18-49 | an identifier is found exactly as often as it is a maximal run of identifier characters |
| Splicing.BackwardIsSubstitution | cmd/conform/flakeparse/splice.go:20-41 | applying disjoint splices from the highest offset down equals substituting all ranges of the original in one pass |
| Splicing.SequenceIsSubstitution | cmd/conform/flakeedit/flakeedit.go:286-293 | so does collecting them in any order, sorting, and applying them one at a time |
| Splicing.ApplyAll | cmd/conform/flakeedit/flakeedit.go:286-293 | the sort and apply loop |
| Rename.RenameTail | cmd/flakeclobber/clobber.go:221-251 | replacing whole tokens renames exactly these words of the text and no other |
| Clobber.Classify | cmd/flakeclobber/clobber.go:163-203 | the classifying loop finds the first conflict, or the pending, satisfied and inapplicable migrations in order |
| Clobber.Clobber | cmd/flakeclobber/clobber.go:137-252 | the loops perform the specified migration, refusals in the source's order |
| Clobber.FailureLeavesSource | cmd/flakeclobber/clobber.go:130-252 | every refusal returns the text unchanged |
| Clobber.ShapeRefusals | cmd/flakeclobber/clobber.go:137-155 | an unrecognized flake, a shadowed list and a missing list are each the error exactly when they are the first that applies |
| Clobber.StateRefusals | cmd/flakeclobber/clobber.go:157-217 | by the tokens of the list: the first migration whose both names stand there is ambiguous; without one nothing changes exactly when nothing is to be done, and a migration already done refuses the others |
| Clobber.ElementRefusals | cmd/flakeclobber/clobber.go:219-282 | the first element that stands there more than once or whose bare replacement is bound nowhere is what refuses; without one every pending element has its edit |
| Migrating.MigrationAppliesIff | cmd/flakeclobber/clobber.go:137-252 | a replacement migration applies exactly when nothing is ambiguous, something is to be done, nothing is done yet and no element is barred |
| Deleting.DeletionRemoves | cmd/flakeclobber/clobber.go:284-309 | an applied deletion takes one range out of the list and nothing else; its words go, the name among them and no longer in the list; that is the one element exactly unless its line is taken out whole and holds another word |
| Deleting.DeletionApplies | cmd/flakeclobber/clobber.go:137-252 | a deletion that is the one thing to be done, and not barred, is carried out |
| Deleting.DeletionTakesMore | cmd/flakeclobber/clobber.go:284-309 | a list in which deleting an element takes another one with it |
| Migrating.MigrationRenames | cmd/flakeclobber/clobber.go:221-251 | an applied replacement migration changes the packages list only, and in the list exactly the pending words |
| Migrating.MigrationReplaces | cmd/flakeclobber/clobber.go:221-251 | each applied old name is gone from the list and its new name stands there exactly once |
| Migrating.MigrationInPlace | cmd/flakeclobber/clobber.go:221-312 | byte by byte, the list before and after are the same gaps woven with the old names and with the new ones, each applied migration at one place |
| Migrating.MigrationIdempotent | cmd/flakeclobber/clobber.go:137-214 | running the migration on its output changes nothing and reports what was applied as satisfied |
| WholeTree.SignaturePermuted | format/check.go:234-275 | the whole-tree key does not depend on the order of the files |
| WholeTree.SignatureCovers | format/check.go:238-275 | with digests of one length and no collision among the texts hashed for two keys, equal keys come from equal configuration bytes and the same covered files |
| WholeTree.NoCollisionMet | format/check.go:238-275 | for every linter and file there is a hash that meets these premises |
| WholeTree.CoveredFile | format/check.go:251-264 | files are covered alike exactly when path, modification second and size agree |
| WholeTree.ConfigDetermined | format/check.go:238-249 | among the linters the program loads, equal configuration bytes mean equal up to the working directory exactly when no option, include or exclude is empty or an empty include is the only include |
| CheckCache.CacheAgrees | format/check.go:185-232 | with a sound cache and verdicts determined by the key among the linters and files concerned, findings and failure are those of an uncached run and the cache stays sound |
| CheckCache.RunsAgree | format/check.go:179-232 | in any sequence of check runs from an empty cache every run reports what it would uncached, when verdicts are a function of configuration bytes and covered files, digests have one length and the texts these runs hash do not collide |
| CheckCache.ConfiguredRunsAgree | format/check.go:179-232 | the same when verdicts are a function of the whole configuration, working directory included, and the covered files, for linters the program loads whose bytes leave no room for a misreading and that ran in the same directory wherever bytes and covered files agree |
| CheckCache.SettledExactly | format/check.go:179-249 | for such linters, digests of one length and no collision, the key determines all verdicts of that kind exactly when the directories agree in that way |
| CheckCache.RunsPremisesMet | format/check.go:179-232 | the premises of both are met by two runs of which the second is answered from the cache |
| CheckCache.RanIffDue | format/check.go:185-232 | without a failure the linters that ran are exactly the triggered ones without a matching entry |
| CheckCache.RanInOrder | format/check.go:185-232 | the linters that ran are, in name order, those with triggering files and no matching entry, up to the first that breaks |
| CheckCache.ReportIs | format/check.go:198-231 | a check fails exactly when a linter that ran broke, and then reports nothing; else it reports exactly those that ran with findings, in order |
| CheckCache.RanOnce | format/check.go:179-232 | no linter runs twice |
| CheckCache.OnlyCleanRunsStored | format/check.go:211-228 | with caching on exactly the linters that ran clean get an entry, the key of what they ran over, and every other entry stays |
| CheckCache.SplitIrrelevant | format/check.go:147-156 | for linters that do not care about the order of their files, the split into batches and the arrival order change nothing about what runs, is found and is stored |
| CheckCache.CoveredVerdictDetermined | format/check.go:234-275 | verdicts that depend on configuration bytes and covered files only are determined by the key, when digests have one length and the hashed texts do not collide |
| CheckCache.DirectoryHidesEdit | format/check.go:185-249 | for every linter, after a clean run in one working directory the check does not run over the same files in any other, where an uncached run reports what it finds |
| CheckCache.EmptyPartHidesEdit | format/check.go:234-249 | every loadable linter outside the exact condition has one with the same directory but other lists that is loadable and is skipped over the same files after a clean run of the first |
| CheckCache.Checker.Check | format/check.go:70-156 | the loops accumulate, per whole-tree linter, the files that trigger it in walk order |
| CheckCache.Checker.Finalize | format/check.go:185-232 | the loop in name order is the specified one |
| Store.SoundVerifies | profile/resolve.go:260-297 | in a sound store every file in a pin's directory has the pinned digest |
| Store.AlwaysSound | profile/resolve.go:95-98 | from an empty store every file belongs where it stands after any number of resolutions |
| Store.Resolver.Materialize | profile/resolve.go:260-297 | a path is returned exactly when the stored copy, or else the download, has the pinned digest and can be read and written; existing artifacts are never touched, and a fetch happens exactly for an absent one |
| Store.Resolver.StoreRule | profile/resolve.go:238-255 | a path is returned exactly when the rule is there already or can be written over what cannot be read; it is named by the hash of the rule and holds it |
| Store.Resolver.SelectPins | profile/resolve.go:105-123 | succeeds exactly when every artifact has a build for the system with a parsable pin |
| Store.Resolver.AssembleProgram | profile/resolve.go:201-233 | the program read is the specified one, and none is given only when a part cannot be read |
| Store.ProgramIs | profile/resolve.go:201-233 | a program is the text of its preludes in the listed order, each on its own line and empty when not declared, and behind them the rule's |
| Store.Resolver.Resolve | profile/resolve.go:99-162 | every write belongs where it stands; nothing is fetched or written unless all pins parse, then only for absent artifacts; on success every artifact has its pinned digest and every rule is under its hash; a failure with all pins parsed has its reason: an artifact that could not be had, a part that could not be read or a program that could not be stored |
| Hosts.RecognizedIff | cmd/conform/hosts.go:27-29 | exactly the lines of the managed shape are recognized, each in one way |
| Hosts.ManagedRoundTrip | cmd/conform/hosts.go:28-84 | the line written for some hosts reads back as these hosts, in order |
| Hosts.UnionMembers | cmd/conform/hosts.go:179-196 | the union keeps the base in front, holds the hosts of both and repeats nothing it adds |
| Hosts.UnionOf | cmd/conform/hosts.go:180-196 | the loop with its seen table |
| Hosts.EditHosts | cmd/conform/hosts.go:134-177 | the three scans perform the specified edit, and a manual refusal returns the text as it was |
| Hosts.OnlyWidens | cmd/conform/hosts.go:86-152 | the managed line keeps every earlier host in order and gets the missing ones; every other line stays |
| Hosts.OnlyInserts | cmd/conform/hosts.go:163-174 | without a managed line, the line written for exactly the given hosts is inserted before the last closing brace and nothing is lost |
| Hosts.EditIdempotent | cmd/conform/hosts.go:86-177 | persisting the same hosts again changes nothing |
| Hosts.RefusalReasons | cmd/conform/hosts.go:134-177 | an overlay is refused as edited by hand exactly when no line is the managed one and a line of code mentions the option, and for want of a place exactly when none of these holds and no closing brace stands in the first column; every other one is edited |
| Hosts.QuotedRules | cmd/conform/hosts.go:31-143 | quoted strings are read leftmost first, empty ones and unclosed ones are not |

## Left out

- Blech32.Decode: the Unicode tables of lower-casing are not modelled; the rule is a parameter, known on ASCII only, and
  decides which error a text with other characters gets.
- Regroup.ConvertBits: shifts by a variable count are written as that many one-bit shifts of the 32-bit accumulator.
- Batching.SequenceIsOrdered: the library sort is modelled by an insertion sort with the same comparison; when priorities
  overflow, the comparison is no order and the library's result is not specified.
- Splicing.ApplyAll: the library sort is unstable; for two splices at one offset the model fixes one of the possible
  orders, and the theorems assume distinct offsets.
- FormatRuns.EntriesAreEarned: modification times inside one second are not distinguished, as in the source; file contents
  are not part of the run model, only their stamps.
- FormatQuiet.NextRunFormatsNothing: a formatter is taken to write only the files it is passed.
- Migrating.MigrationIdempotent: the second parse is taken to find the rewritten list where it now stands.
- Clobber.Clobber: the parser's offsets are taken as given; a range outside the text is a refusal here where the source
  would panic.
- Migrating.MigrationRenames: the theorems on what changes cover replacements between distinct identifier tokens, and
  single deletions; nothing is said about several deletions at once, whose lines may overlap.
- Staged.RunStagedLanes: renames, copies and unmerged entries of git status, attribute filters, failures partway through
  restaging and the removal of untracked temporaries are not modelled.
- Commit.RunCommitFlow: failures of git while it reads status, publication or conflict markers are not modelled.
- Codegen.Session.Run: a check's own validation is a given verdict, and the early return on an empty later discovery is
  kept, so on that exit nothing is claimed about checks being up to date.
- Codegen.Session.Converge: the paths recorded as intent-to-add are a set, so their order is not modelled.
- CheckCache.ConfiguredRunsAgree: whatever else a check reads (other files of the tree, the tool's own binary, the
  environment) is not in the key either; the premise on verdicts rules it out.
- CheckCache.Checker.Check: formatters, per-file linters, unmatched files and generated-file probes are not modelled.
- Store.Resolver.Resolve: modes, temporary files, the translation of linter fields other than the rule, and readers that
  change the cache meanwhile are not modelled.
- Hosts.EditHosts: bytes that are no valid UTF-8 are not modelled; hosts with quotes or newlines are outside the theorems.
- Identity.IdentityInjective: the final hash of the stream is not modelled; statements are about the stream it is given.
- The per-formatter contribution to a signature is an arbitrary value: its own fields are not framed in the source.
- Hashes are arbitrary functions; where a statement needs it, digests have one length and the finitely many texts that
  its runs hash do not collide.
- Composite reading over several paths, include and exclude patterns, statistics, logging, timeouts and signals.
- The flake grammar and the splice builders of flakeedit; only the sort and apply loop is modelled.
- Stdin mode, subprocesses, HTTP, signatures of profiles, configuration parsing and command-line flags.
