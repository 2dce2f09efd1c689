# KAINE: a verified model of its protocols and transformations

This project models the parts of KAINE in which a guarantee spans many runs, many steps or several
functions, and proves the guarantee for every input, every run or every reachable state.

- **Shared state and residency.** `StateIo` (with `StateIoInvariant`, `StateIoReads`,
  `StateIoGuarantees`, `StateIoValues` and `StateIoProgress`) is the locked read-modify-write of a
  JSON file by any number of processes, as a step system with short writes, fsync, rename, crashes,
  power loss and readers that take no lock. `Residency` (with `ResidencyInvariant`,
  `ResidencyGuarantees`, `ResidencyFates` and `ResidencyProgress`) is the load / encode / unload
  protocol of the embedders, with worker threads, an asyncio lock, the in-flight gate and cancellation.
- **Configuration.** `ConfigTree`, `DeepMerge`, `AliasTable`, `TablePaths`, `LegacyAliases`,
  `LegacyClean` and `LayerNormalizer` model the reading of a layer written with old or new names and
  the merge of layers; `ConfigShape` is the shape the runtime relies on, and `LoadConfig` the whole
  layered load with its guards.  The meaning proved is a path lookup: the last layer that sets an
  item, under either name, wins.
- **Wheel index resolver.** `ArchTokens` reads and prints architecture lists and decides which device
  a build covers; `WheelLadder` is the ranked and filtered ladder, proved sound, optimal, complete
  and monotone.  `Sequences` holds slices, stable sorting, filtering and searching.
- **Tokenizer.** `WordPiece`: the punctuation splitter, the greedy loop and the truncation.
- **Training.** `DpoTraining`: truncation and label alignment, the completion score and gradient
  accumulation. `Promotion`: the abliteration verdict and the promotion state machine.
- **Perception, clock, reservoir.** `Perception`: the development lock over the perceptual locus, with
  unlocked writers. `EntityClocks`: the re-anchored subjective clock. `Cfc`: the bounded reservoir and
  the readout's gradient step.
- **Text and payload edits.** `TextLines`, `LineEdits` and `SecretsFile`: the line editor for secrets,
  and `AnyLineEnds` what it does to a text whose lines end in anything.
  `PrivacyFilter`: the recursive scrub.

Code that changes state step by step is modelled by methods with loops, by classes or by step systems,
each tied to a specification function whose properties are the lemmas below.  Floats are reals;
`tanh` and the sigmoid are functions of which only the range is used; JSON and TOML parsing, the codec
of a state file, the Unicode categories and the packaged tables are parameters.

## Where the code and its promises part

The model follows the code.  These are the places where a promise holds only under a condition, and
each is proved as an exact condition or with a concrete run:

- A cancelled load of the numpy embedder runs on in its thread, so an encode can be admitted with a
  torn model (`ResidencyGuarantees.SafeExactlyWhenLoadsAreKept`, `ResidencyGuarantees.TornModel`).
- `deep_merge` is not associative when a value stands between two tables
  (`DeepMerge.AssociativeExactly`, `DeepMerge.NotAssociative`).
- A dotted alias whose new path runs through a value overwrites it, so a normalised layer carries
  every value exactly when no move does (`LegacyAliases.NormalizeCarriesExactly`,
  `LegacyAliases.NormalizeLosesValue`); the shipped aliases never do (`TablePaths.SiblingMovesLossless`).
- A tier can hide a badly shaped section, so that a load succeeds only with it
  (`LoadConfig.TierKeepsModules`, `LoadConfig.TierHidesShape`).
- A tier that gives `oscillator` a value that is not a table passes the guard, and under a later layer
  with an `[oscillator]` table drops `[oscillator].enabled` (`LoadConfig.TierKeepsOscillatorExactly`,
  `LoadConfig.TierDropsOscillator`).
- The writers of the desired perceptual state read and write without a lock, so a writer under way
  when the development gate locks the locus can lift the lock (`Perception.LockPersistsExactly`,
  `Perception.StaleToggleLiftsTheLock`).
- An interruption during training is handled nowhere: it can leave the temporary adapter directory,
  or a moved `current` in a run that is not accepted (`Promotion.EndedRun`, `Promotion.InterruptedRuns`).
- Editing a secrets file whose lines end in anything but LF or CRLF can swallow another setting or
  change one (`AnyLineEnds.UpsertedSettingsExactly`, `AnyLineEnds.JoinedLines`).
- A list of bare numbers and nested numeric vectors comes out of the scrub as a numeric vector
  (`PrivacyFilter.VectorFreeExactly`, `PrivacyFilter.NestedVectorLeavesVector`).
- An architecture version with a two-digit minor does not survive printing and parsing
  (`ArchTokens.PrintedSm`, `ArchTokens.SmNameShared`).
- The ladder's last reason, "candidate ladder exhausted", can never be given (`WheelLadder.CpuExactly`).

## Model

| member | source | states |
|---|---|---|
| StateIoGuarantees.ExactlyOnceInLockOrder | kaine/state_io.py:93-111 | in every run the file holds the committed updates applied one after another in the order of the lock; each version encodes what `fn` makes of the value of the version before, and of the default only where the file is missing or does not decode or a read error came up during the call; a call is applied at most once, applied if it returned, not applied if it raised, and every other started call is still running or died |
| StateIoGuarantees.ReadersSeeWholePayloads | kaine/state_io.py:43-72 | a reader that takes no lock gets the whole payload of the version current when it opened the file |
| StateIoGuarantees.QuietLeavesNoTemp | kaine/state_io.py:43-72 | with nobody running, no temporary file is left but where a process died, power failed or the unlink failed |
| StateIoGuarantees.LockIsNeeded | kaine/state_io.py:75-90 | on a host where the lock is a no-op two increments of a missing counter leave 1: a concrete run |
| StateIoInvariant.StepInv | kaine/state_io.py:43-111 | every step of every process keeps the invariant on files, lock, log and program counters |
| StateIoGuarantees.RunInv | kaine/state_io.py:43-111 | the invariant holds after every run |
| StateIoReads.StepFlag | kaine/state_io.py:102-106 | after every step a call works on the default for a failed read exactly when a read error of its process came up during it |
| StateIoInvariant.MainIsFold | kaine/state_io.py:93-111 | under the invariant the file is the fold of the committed log |
| StateIoInvariant.ReplaceHistory | kaine/state_io.py:66-66 | the rename leaves the history as it was and adds one version: the update of the calling process applied to the file it replaces |
| StateIoInvariant.PowerLossInv | kaine/state_io.py:43-72 | a power loss keeps the invariant: the file is one of the published, fsynced versions, whole |
| StateIoGuarantees.StepAccount | kaine/state_io.py:93-111 | after every step each started call is committed, raised, dropped or still running, and each temporary file has an owner or a reason to be left |
| StateIoInvariant.StepKeepsOrigin | kaine/state_io.py:43-72 | no step changes the inode or the bytes of the file the run started with |
| StateIoValues.ReturnedValue | kaine/state_io.py:93-111 | in every run a call that returned has committed one version and returned the value that version encodes: what its `fn` made of the value of the version before, or of the default where there was none to read |
| StateIoValues.StepValue | kaine/state_io.py:93-111 | every step keeps data, versions and results the encodings of the values the calls computed |
| StateIoValues.CanReturn | kaine/state_io.py:110-111 | a call that has published its value can always return it |
| StateIoProgress.UndisturbedCallEnds | kaine/state_io.py:43-111 | from every reachable state a call whose lock is free or its own can run to its end: it leaves what `fn` makes of the file, returns that value and frees the lock, or raises as `fn` or the serialisation does and changes nothing |
| StateIoProgress.HolderCanEnd | kaine/state_io.py:43-111 | whoever holds the lock, wherever in its call, can run to the end of it, so the lock is never stuck |
| StateIoProgress.FailedCallCleansUp | kaine/state_io.py:67-72 | a call that fails before the rename removes its temporary file, raises, and leaves the file as it was |
| StateIoProgress.ReaderCanEnd | kaine/state_io.py:43-72 | a reader that takes no lock can always read the file it opened to the end |
| StateIoProgress.PowerCanFail | kaine/state_io.py:43-72 | power can fail at any time, any published version can be the file afterwards, and unsynced bytes can be cut at any place |
| StateIoProgress.FaultsStayPossible | kaine/state_io.py:43-111 | no death, read error, failed unlink or short write is ruled out |
| StateIoProgress.AnyFileStarts | kaine/state_io.py:103-106 | a run can start with any bytes in the file, or with no file |
| StateIoProgress.LossesHaveCauses | kaine/state_io.py:43-111 | calls are dropped and files leaked only by deaths, power loss and failed unlinks, and a call raises only by its own exception |
| ResidencyGuarantees.SafeExactlyWhenLoadsAreKept | kaine/text_embedding_numpy.py:800-978 | all admitted encodes hold weights, config and tokenizer of one load, and clearing finds no encode, in every interleaving, exactly when fields are stored on the loop or loads are never cancelled |
| ResidencyGuarantees.TornModel | kaine/text_embedding_numpy.py:814-913 | with stores in the thread and a cancelled load, a run admits an encode with a missing config |
| ResidencyGuarantees.OneLoadExactlyWhenNotCancelled | kaine/text_embedding_numpy.py:800-808 | at most one load runs at a time in every interleaving exactly when loads are not cancelled |
| ResidencyGuarantees.ClearFindsNobody | kaine/text_embedding_numpy.py:966-978 | when the fields are cleared no admitted encode is outstanding |
| ResidencyFates.EveryRequestHasItsFate | kaine/text_embedding_numpy.py:800-978 | in every run each request is still pending, or was called off by its cancellation or the failure of its load, or answered: an encode is admitted exactly once with the fields as they are then, whole when loads are kept; an unload found nothing loaded or cleared the fields |
| ResidencyFates.StepFate | kaine/text_embedding_numpy.py:800-978 | a step that takes a request out is its cancellation, the failure of its load, or its answer |
| ResidencyFates.StepTable | kaine/text_embedding_numpy.py:800-978 | in every setting, cancelled loads included, the lock has one holder, the gate counts the encodes and no wake-up is lost |
| ResidencyProgress.WaiterCanBeServed | kaine/text_embedding_numpy.py:918-978 | from every reachable state a request that finds the lock free can be served: an encode on a cold embedder by a load of its own |
| ResidencyProgress.HolderCanEnd | kaine/text_embedding_numpy.py:800-978 | whoever holds the lock can be brought to its end: an unload clears as soon as the admitted encodes have finished |
| ResidencyProgress.StepJobFate | kaine/residency/inflight.py:59-132 | an admitted encode keeps the model it was handed and counts in the gate until it has finished or was abandoned before it ran |
| ResidencyProgress.AnythingCanHappen | kaine/text_embedding_numpy.py:800-978 | requests, cancellations, failing loads and abandoned encodes are possible whenever the source allows them |
| ResidencyInvariant.StepInv | kaine/text_embedding.py:157-245 | every step keeps the invariant on lock, model, gate and threads |
| ResidencyInvariant.RunInv | kaine/text_embedding.py:157-245 | the invariant holds after every run |
| ResidencyInvariant.ReleaseInv | kaine/residency/inflight.py:59-132 | the end of an encode keeps the invariant: a task is woken to clear only when no admitted encode is left |
| DeepMerge.DeepMerge | kaine/config.py:295-314 | the copying loop computes the recursive merge |
| DeepMerge.MergeLeaf | kaine/config.py:295-314 | a value of the merge is the upper layer's, else the lower layer's unless the upper one has a table there or a value above |
| DeepMerge.MergeOverNothing | kaine/config.py:307-313 | merging over an empty table or over a value copies the upper layer |
| DeepMerge.LastSetterWins | kaine/config.py:588-674 | in a stack the last layer that sets a path wins exactly when no later layer blocks the path |
| DeepMerge.StackInventsNothing | kaine/config.py:588-674 | a path no layer sets has no value in the stack |
| DeepMerge.CoveredExactly | kaine/config.py:295-314 | merging a layer under another changes nothing exactly when the lower one is covered |
| DeepMerge.AssociativeExactly | kaine/config.py:295-314 | the merge is associative exactly on compatible layers |
| DeepMerge.NotAssociative | kaine/config.py:295-314 | a value between two tables makes the groupings differ |
| AliasTable.RenameInPlace | kaine/legacy_aliases.py:186-210 | moving keys one at a time is the simultaneous renaming, refused exactly when an item is set under both names |
| AliasTable.OldOfNew | kaine/legacy_aliases.py:186-195 | with no clash a key can be told from its current name |
| AliasTable.RenamedAt | kaine/legacy_aliases.py:186-195 | renaming keeps every entry under its current name |
| AliasTable.RenamedFrom | kaine/legacy_aliases.py:186-195 | every entry of the renamed table comes from an entry of the old one |
| AliasTable.RenamedHasNoOld | kaine/legacy_aliases.py:186-195 | no old name is left among the keys |
| AliasTable.RenamedUnique | kaine/legacy_aliases.py:186-195 | the renamed table is the only one holding each item once under its current name |
| TablePaths.SetLeaf | kaine/legacy_aliases.py:70-77 | what stands at every path after setting one path |
| TablePaths.RemoveLeaf | kaine/legacy_aliases.py:80-97 | what stands at every path after deleting one path and the tables it empties |
| TablePaths.MoveLeaf | kaine/legacy_aliases.py:212-225 | what stands at every path after a move |
| TablePaths.MoveKeepsValuesExactly | kaine/legacy_aliases.py:212-225 | a move into a free place keeps every value exactly when no value stands above that place, nor under an old path above the new one |
| TablePaths.MoveAllRenamesExactly | kaine/legacy_aliases.py:212-225 | all moves together carry each value once to its moved path exactly when each move that is made is lossless |
| TablePaths.MovedAllFrom | kaine/legacy_aliases.py:212-225 | whether or not they lose any, the moves make no value |
| TablePaths.MoveOverwritesValue | kaine/legacy_aliases.py:70-77 | moving a.b to c.d over a value at c succeeds and loses it |
| TablePaths.SiblingMovesLossless | kaine/legacy_names.py:1450-1455 | aliases that rename an item inside its table, as all shipped dotted ones do, lose nothing in any layer |
| TablePaths.MoveTables | kaine/legacy_aliases.py:212-225 | the loop over the dotted aliases computes the moves or refuses a taken place |
| LegacyAliases.FlagsRename | kaine/legacy_aliases.py:197-210 | the module flags are renamed one-to-one inside [modules] |
| LegacyAliases.KeysRename | kaine/legacy_aliases.py:227-243 | key aliases at any depth rename every path segment one-to-one |
| LegacyAliases.RenameAllRenamesExactly | kaine/legacy_aliases.py:155-243 | all renaming passes together carry every value once to its current path exactly when no dotted move overwrites or drops one |
| LegacyAliases.RewrittenLeaf | kaine/legacy_aliases.py:245-331 | the value passes change values in place and no path |
| LegacyAliases.NormalizeCarriesExactly | kaine/legacy_aliases.py:129-339 | a normalised layer holds every value of the layer exactly once, at its current path and in its current form, and nothing else, exactly when no dotted move overwrites or drops one |
| LegacyAliases.NormalizedFrom | kaine/legacy_aliases.py:129-339 | in every case each value of a normalised layer is the current form of one of the layer, at its current path |
| LegacyAliases.PendingStays | kaine/legacy_aliases.py:138-145 | a layer comes back as it is when no table, key, value or stream alias is active, and only then is reading skipped |
| LegacyAliases.NormalizeLosesValue | kaine/legacy_aliases.py:212-225 | a layer setting a.b and c normalises under the alias of a.b to c.d without an error and loses c |
| LegacyClean.RenamedKeysFree | kaine/legacy_aliases.py:227-243 | no old key is left in any table |
| LegacyClean.RenamingCleansNames | kaine/legacy_aliases.py:186-243 | no pass brings back a name an earlier pass removed |
| LegacyClean.RestreamIs | kaine/legacy_aliases.py:245-270 | the stream passes rename each name once |
| LegacyClean.StateRestIs | kaine/legacy_aliases.py:280-291 | a state path has its first segment renamed and the rest kept |
| LegacyClean.StatePathRenames | kaine/legacy_aliases.py:280-291 | `state/<old>` and everything below it moves to `state/<new>` |
| LegacyClean.StateCleanStays | kaine/legacy_aliases.py:280-291 | every other string stays as it is |
| LegacyClean.StatePathClean | kaine/legacy_aliases.py:280-291 | a rewritten string has no old directory name below `state/` |
| LegacyClean.StatePathSettled | kaine/legacy_aliases.py:280-291 | so rewriting twice is rewriting once |
| LegacyClean.NormalizedStatePath | kaine/legacy_aliases.py:269-298 | a state path in a layer comes out of normalisation under the new directory name, at its current path |
| LegacyClean.ListedValueCases | kaine/legacy_aliases.py:312-331 | a listed value is replaced by a listed new value or matches no entry |
| LegacyClean.RewrittenValueClean | kaine/legacy_aliases.py:245-331 | a rewritten value is in its current form |
| LegacyClean.NormalizeLeavesNoOldName | kaine/legacy_aliases.py:129-339 | no old name or value is left in any position the aliases govern |
| LegacyClean.CleanLayerStays | kaine/legacy_aliases.py:129-339 | a layer written with current names comes back as it is |
| LegacyClean.NormalizeIdempotent | kaine/legacy_aliases.py:129-339 | normalising twice is normalising once |
| LegacyClean.SampleIsSeparated | kaine/legacy_names.py:1450-1557 | a table with a shipped entry of each kind meets the conditions of these results |
| LayerNormalizer.CheckLayer | kaine/legacy_aliases.py:155-182 | the checks refuse exactly the layers that set an item under both names |
| LayerNormalizer.AliasKeys | kaine/legacy_aliases.py:227-243 | the walk over all tables renames keys at every depth or refuses a clash |
| LayerNormalizer.MapModules | kaine/legacy_aliases.py:299-310 | the module list is renamed name by name; a table or list among the names raises |
| LayerNormalizer.ReplaceValues | kaine/legacy_aliases.py:312-331 | the loop over the listed values computes their replacements in order |
| LayerNormalizer.NormalizeConfigLayer | kaine/legacy_aliases.py:129-339 | the passes in source order compute the normalisation whose meaning is proved |
| ConfigShape.SameSections | kaine/config.py:317-539 | the shape check reads nothing but its own sections |
| ConfigShape.ShapeExactly | kaine/config.py:317-539 | the check passes exactly when at every dotted path of the configuration stands what is expected there |
| LoadConfig.LoadMergedConfig | kaine/config.py:569-677 | the layer-by-layer assignments and the final check compute the load, with the errors of every guard |
| LoadConfig.LayerErrors | kaine/config.py:560-566 | a layer set under both names is a profile error, something that is no table or a module list that cannot be looked up a type error |
| LoadConfig.TierRefusedExactly | kaine/config.py:614-622 | a tier is refused exactly for setting [modules] or [oscillator].enabled |
| LoadConfig.StudyAcceptedExactly | kaine/config.py:641-673 | a study is accepted exactly when all it sets is in its six tables, [audition].tone_rule, or [supervisor].enabled = true |
| LoadConfig.LoadIsStack | kaine/config.py:588-674 | a load that succeeds is the stack of its normalised layers in order |
| LoadConfig.LoadedSetting | kaine/config.py:588-674 | the value of an item is the current form of the value of the last layer that sets it under either name, when that layer loses none in its moves, exactly when no later layer blocks its path |
| LoadConfig.LoadedNothingElse | kaine/config.py:588-674 | an item no selected layer sets under any name has no value |
| LoadConfig.SetsItemExactly | kaine/config.py:560-566 | a normalised layer sets only paths of items the layer set under some name, and all of them when its moves lose none |
| LoadConfig.TierKeepsModules | kaine/config.py:603-676 | a load with a tier and the load without it have the same [modules] table where both succeed; when the first succeeds the second fails only in the shape check, exactly when a section the tier sets would not fit |
| LoadConfig.TierHidesShape | kaine/config.py:391-395 | a shipped `oscillator` value under a tier with an empty [oscillator]: the load succeeds with the tier and fails without it |
| LoadConfig.TierKeepsOscillatorExactly | kaine/config.py:614-676 | a tier leaves the loaded [oscillator].enabled alone exactly when it gives no value in place of the table, or the layers below do not set the switch, or the operator does |
| LoadConfig.TierDropsOscillator | kaine/config.py:614-619 | a tier with an `oscillator` value under an operator layer with an empty [oscillator] drops the shipped switch, and both loads succeed |
| LoadConfig.StudyTouchesOnlyItsKeys | kaine/config.py:641-674 | a guarded study changes no value outside its tables and keys |
| LoadConfig.StudyOnlySwitchesSupervisorOn | kaine/config.py:668-673 | a guarded study leaves [supervisor].enabled or sets it to true |
| LoadConfig.LoadedStudyIsConfined | kaine/config.py:641-676 | both of these for the loaded configuration against the load without the study, which succeeds too |
| ArchTokens.PrintedSm | kaine/wheel_index.py:259-294 | a printed sm_ entry reads back as its version exactly when the minor has one digit |
| ArchTokens.PrintedPtx | kaine/wheel_index.py:259-294 | the same for compute_ entries |
| ArchTokens.SmNameInjective | kaine/wheel_index.py:292-294 | names tell versions with one-digit minors apart |
| ArchTokens.SmNameShared | kaine/wheel_index.py:292-294 | versions 1.12 and 11.2 share one name |
| ArchTokens.ParsedExactly | kaine/wheel_index.py:259-267 | a version is read exactly from "a.b" and from digits whose last is the minor |
| ArchTokens.DottedSemantics | kaine/wheel_index.py:270-294 | "a.b" provides version a.b as machine code, and with "+PTX" as intermediate code too, for all a and b |
| ArchTokens.BlanksIgnored | kaine/wheel_index.py:276-279 | blanks around a token change nothing |
| ArchTokens.ListEntries | kaine/wheel_index.py:297-309 | the text of a list of versions is printed as one sm_ entry each, and a compute_ entry for "+PTX", in order |
| ArchTokens.ListCoversExactly | kaine/wheel_index.py:297-343 | those entries cover a device exactly when the list has its version, or one of its major and no higher minor, or intermediate code no higher |
| ArchTokens.CudaIndex | kaine/wheel_index.py:242-249 | the version of a cuNNN index is read back exactly when its minor has one digit |
| ArchTokens.SplitJoined | kaine/wheel_index.py:300-300 | the parts a text is split into join to the text |
| ArchTokens.SplitWithout | kaine/wheel_index.py:300-300 | and none has a separator in it |
| ArchTokens.ArchListToEntries | kaine/wheel_index.py:297-309 | the loop prints the entries of the tokens and skips blank ones |
| ArchTokens.EntriesRoundTrip | kaine/wheel_index.py:297-309 | printing a list and reading the entries back gives the same versions for one-digit minors |
| ArchTokens.DeviceCoverage | kaine/wheel_index.py:312-343 | the loop finds the best coverage: exact, else the highest runnable build of the family, else the highest usable PTX; none exactly when uncovered |
| ArchTokens.BestMeans | kaine/wheel_index.py:312-343 | what the best coverage is in plain numbers |
| ArchTokens.CoverageOrderFree | kaine/wheel_index.py:312-343 | the answer does not depend on the order of the entries |
| ArchTokens.PrintedListCoversTheSame | kaine/wheel_index.py:297-343 | the printed list covers the same devices in the same way |
| ArchTokens.ExactIsMembership | kaine/wheel_index.py:326-334 | on one-digit minors the match by name is membership of the version |
| Sequences.SortSorted | kaine/wheel_index.py:1210-1224 | a sort by a total order is in order |
| Sequences.SortContents | kaine/wheel_index.py:1210-1224 | a sort keeps the elements with their counts |
| Sequences.SortStable | kaine/wheel_index.py:1210-1224 | a sort leaves elements the order does not tell apart in their order |
| WheelLadder.EligibleIndexes | kaine/wheel_index.py:1190-1201 | the indexes whose CUDA version the driver supports, each as often as listed, newest CUDA first and then by name |
| WheelLadder.AllCandidates | kaine/wheel_index.py:1203-1224 | exactly the candidates in range for the architecture, ranked by torch, CUDA and name |
| WheelLadder.FilterCandidates | kaine/wheel_index.py:1231-1280 | each candidate is kept or rejected once, for the first rule it breaks; the flags say how far some candidate came |
| WheelLadder.Ladder | kaine/wheel_index.py:1156-1404 | the outcome is sound, optimal and complete, and every candidate is kept or rejected exactly once |
| WheelLadder.CudaMeans | kaine/wheel_index.py:1156-1335 | in plain numbers and tables: the chosen build suits the host, and any other that does has a lower torch, an older CUDA or a later name; when the self-test is asked for |
| WheelLadder.CpuMeans | kaine/wheel_index.py:1338-1404 | nothing suits the host, and the CPU torch is the newest in range |
| WheelLadder.TerminalMeans | kaine/wheel_index.py:1363-1393 | what each terminal reason says of the host |
| WheelLadder.TextAtMostMeans | kaine/wheel_index.py:1215-1224 | the order of names: the first characters to differ decide |
| WheelLadder.NewestCpu | kaine/wheel_index.py:346-352 | the newest version in range, or none when none is |
| WheelLadder.ReasonExplains | kaine/wheel_index.py:1363-1393 | the terminal reason is the first rule that no candidate meets together with those before it |
| WheelLadder.OutcomeDetermined | kaine/wheel_index.py:1156-1404 | the index kind, the torch and the CUDA version are determined by the rules |
| WheelLadder.CpuExactly | kaine/wheel_index.py:1338-1393 | the CPU index is taken exactly when no candidate satisfies every rule, and never for the reason "exhausted" |
| WheelLadder.NewerDriverNeverHurts | kaine/wheel_index.py:1184-1201 | a newer driver never turns CUDA into CPU, nor lowers the torch, nor the CUDA version of the same torch |
| WheelLadder.MoreDevicesNeverHelp | kaine/wheel_index.py:1240-1262 | more probed devices never turn CPU into CUDA, nor raise the torch, nor the CUDA version of the same torch |
| WheelLadder.ChosenRunsEverywhere | kaine/wheel_index.py:1240-1315 | the chosen build covers every probed device, and a unified-memory host always gets the self-test |
| WordPiece.SplitOnPunc | kaine/text_embedding_numpy.py:332-347 | the words are lone punctuation or free of punctuation, longest runs, and spell the text |
| WordPiece.SplitUnique | kaine/text_embedding_numpy.py:332-347 | there is one such split |
| WordPiece.PunctuationExactly | kaine/text_embedding_numpy.py:285-290 | in ASCII, punctuation is all that prints but letters, digits and the blank |
| WordPiece.WordHasNoMarks | kaine/text_embedding_numpy.py:285-290 | no word of a split contains "##" |
| WordPiece.WordPieceTokenize | kaine/text_embedding_numpy.py:363-384 | the loop ends on such words with the greedy longest-match pieces, or the unknown token |
| WordPiece.GreedyUnique | kaine/text_embedding_numpy.py:367-384 | there is one greedy segmentation, and none of a text that gets stuck |
| WordPiece.PiecesSpellTheWord | kaine/text_embedding_numpy.py:363-384 | the pieces are in the vocabulary and, without their marks, spell the word, or the word is unknown |
| WordPiece.EndsExactlyWithoutMarks | kaine/text_embedding_numpy.py:369-384 | the loop ends for every vocabulary exactly on the texts without "##" |
| WordPiece.SplitWordsEnd | kaine/text_embedding_numpy.py:332-384 | the loop ends on every word the splitter emits |
| WordPiece.Tokenize | kaine/text_embedding_numpy.py:254-267 | special tokens stay whole; every other segment becomes the pieces of its words, in order |
| WordPiece.TokensUnique | kaine/text_embedding_numpy.py:254-384 | the tokens of a text are determined by the split and the segmentation |
| WordPiece.EncodeFitsExactly | kaine/text_embedding_numpy.py:269-274 | the encoding fits the limit exactly when the limit is at least two |
| WordPiece.EncodeText | kaine/text_embedding_numpy.py:254-274 | the ids of a text: between the markers one id for each kept piece, its own in the vocabulary or the unknown one; with distinct ids the pieces are read back through the inverse vocabulary |
| WordPiece.EncodeKeepsPrefix | kaine/text_embedding_numpy.py:269-274 | between its markers stand the ids of the longest prefix of the pieces that fits |
| DpoTraining.EncodedFitsExactly | scripts/sleep_external_train.py:268-280 | every row fits the limit exactly when the limit is at least one |
| DpoTraining.EncodedKeeps | scripts/sleep_external_train.py:268-280 | only the end of the completion and the start of the prompt are cut, no more than needed, and a prompt never vanishes |
| DpoTraining.PredictionsAlign | scripts/sleep_external_train.py:322-331 | predictions and targets line up whether or not the model honours logits_to_keep |
| DpoTraining.CompletionLogProb | scripts/sleep_external_train.py:311-333 | the score is the sum over all labelled tokens that have a token before them |
| DpoTraining.AllScoredExactly | scripts/sleep_external_train.py:311-333 | every labelled token is scored exactly when some prompt is kept or there is no completion |
| DpoTraining.EncodedScore | scripts/sleep_external_train.py:259-333 | for a row with a prompt the score covers all kept completion tokens, whatever the limit cuts |
| DpoTraining.ScoreRow | scripts/sleep_external_train.py:259-333 | encoding and scoring one half of a row, for any limit, gives the sum over all its labelled tokens but the first of the row |
| DpoTraining.FirstTokenUnscored | scripts/sleep_external_train.py:317-321 | without a prompt the first completion token is not scored |
| DpoTraining.GroupsPartition | scripts/sleep_external_train.py:369-401 | each row is in exactly one group, in order, and all groups but the last are full |
| DpoTraining.GroupsCount | scripts/sleep_external_train.py:392-399 | there are ceil(rows / accumulation) groups |
| DpoTraining.RunEpoch | scripts/sleep_external_train.py:350-402 | one optimizer step per group, on the sum of the gradients of just its rows at the parameters it starts from; the mean of the losses |
| DpoTraining.MeanIs | scripts/sleep_external_train.py:402-402 | the mean, taken once for each value, is their sum |
| DpoTraining.Optimizer.Backward | scripts/sleep_external_train.py:390-390 | adds the gradient of one row to those pending |
| DpoTraining.Optimizer.Step | scripts/sleep_external_train.py:392-395 | one step on the pending gradients, which are then cleared |
| Promotion.AbliterationVerdict | scripts/sleep_external_train.py:931-967 | passes exactly for a non-empty list of valid probes none of which is deflected, and otherwise fails closed with the first deflected probe |
| Promotion.StepInv | scripts/sleep_external_train.py:1111-1300 | every step, failure, cancellation and interruption keeps the invariant on gates, link and directories |
| Promotion.CurrentMovesOnlyPastTheGates | scripts/sleep_external_train.py:1224-1300 | in every run `current` moves only when there were probes, all valid and none deflected by the trained model, and the capability loss is within the threshold; and then it names a complete adapter |
| Promotion.EndingEvent | scripts/sleep_external_train.py:1111-1300 | a run that has ended was ended by one event and has only been marked cancelled since |
| Promotion.EndedRun | scripts/sleep_external_train.py:1183-1300 | an accepted run passed both gates; a run not accepted has moved `current` exactly when it was interrupted between the move and its return, and a run leaves the temporary directory exactly when the event that ended it found one and was an interruption or a removal that left it |
| Promotion.CancelledIsNeverPromoted | scripts/sleep_external_train.py:983-987 | a job cancelled before the check is never promoted, however the run goes on |
| Promotion.RunIsShort | scripts/sleep_external_train.py:1111-1300 | every run takes at most twenty-one steps of its own |
| Promotion.UndisturbedAcceptsExactly | scripts/sleep_external_train.py:1224-1300 | when nothing fails the run accepts exactly when the probes hold, the capability loss is within the threshold and the target is free |
| Promotion.FailedRunEnds | scripts/sleep_external_train.py:1153-1300 | after an exception in the protected part nothing temporary is left and `current` is as it was; the run ends as out of memory exactly when the exception was that |
| Promotion.CancelledRunEnds | scripts/sleep_external_train.py:983-987 | a run cancelled before the check ends with an error, or refused by a gate, and leaves nothing temporary |
| Promotion.AnythingCanHappen | scripts/sleep_external_train.py:1111-1300 | every step but the removals and the result can fail, and an interruption or cancellation can come at any time |
| Promotion.InterruptedRuns | scripts/sleep_external_train.py:1295-1300 | an interruption can leave the temporary directory, or a moved `current` in a run not accepted |
| Perception.FromDict | kaine/perception_state.py:110-119 | what is read is always a valid state |
| Perception.RoundTrip | kaine/perception_state.py:93-119 | what is written is what is read |
| Perception.ObjectReads | kaine/perception_state.py:110-186 | what absent, empty and odd entries are read as |
| Perception.NothingReads | kaine/perception_state.py:171-186 | what a missing, unreadable or empty file is read as |
| Perception.WritersChange | kaine/perception_state.py:189-300 | what each writer changes of the state as it is read, and that nothing else changes |
| Perception.DesiredFile.Write | kaine/perception_state.py:189-300 | the new file content and result of each of the four writers |
| Perception.CaptureExactly | kaine/perception_state.py:240-273 | real and virtual capture are never both on, and one is on exactly when the modality is wanted and the locus is not off |
| Perception.HeldThroughout | kaine/perception_state.py:171-300 | through any writes of others, one at a time, the development lock, holder and locus stay and real capture stays off |
| Perception.UnreadableLocusConfines | kaine/perception_state.py:181-186 | a development lock with an invalid locus confines to the virtual locus |
| Perception.LockPersistsExactly | kaine/perception_state.py:189-300 | the lock survives every interleaving exactly when no writer under way is about to write a state without it, and that is exactly when each has read a state fresh enough for its operation |
| Perception.KeepsExactly | kaine/perception_state.py:189-300 | which stale reads are dangerous: a toggle must have read the lock, holder and locus that are held; a feed change any lock, for then it writes nothing; a locus change the development lock, unless what it sets and what it has read give the held state |
| Perception.StaleToggleLiftsTheLock | kaine/perception_state.py:189-194 | a toggle that read before the lock was set lifts it |
| EntityClocks.EntityClock.constructor | kaine/entity_clock.py:54-71 | subjective time starts at the origin |
| EntityClocks.EntityClock.SetScale | kaine/entity_clock.py:94-104 | a negative scale is refused; otherwise the clock is re-anchored without a jump |
| EntityClocks.OrderedExactly | kaine/entity_clock.py:81-104 | a run is ordered exactly when no reading of the wall clock is before the one before it |
| EntityClocks.NeverBackwards | kaine/entity_clock.py:81-104 | over every run on a non-decreasing wall clock subjective time never goes backwards |
| EntityClocks.SubjectiveIsElapsed | kaine/entity_clock.py:81-104 | it is the origin plus scale times elapsed time, less exactly old scale times the gap between the two readings of each change |
| EntityClocks.LostExactly | kaine/entity_clock.py:94-104 | nothing is lost exactly when each change finds a stopped clock or reads the same time twice |
| Cfc.StepBounded | kaine/cfc_numpy.py:235-260 | one step is in [-1, 1] whatever the weights, input and timespan |
| Cfc.RunBounded | kaine/cfc_numpy.py:235-260 | the hidden state stays in [-1, 1] over every run |
| Cfc.StepIs | kaine/cfc_numpy.py:246-260 | each component moves from the first head towards the second as far as the gate says |
| Cfc.BackboneIs | kaine/cfc_numpy.py:243-249 | the backbone weighs the input and after it the hidden state |
| Cfc.WeightGradient | kaine/cfc_numpy.py:184-204 | moving one weight changes the loss by the gradient times the move, up to its square |
| Cfc.BiasGradient | kaine/cfc_numpy.py:184-204 | the same for a bias |
| Cfc.StepFollowsGradient | kaine/cfc_numpy.py:201-203 | the step goes against that gradient at the learning rate |
| Cfc.NumpyReadout.SgdStep | kaine/cfc_numpy.py:184-204 | the new weights and bias, the loss before the step, and the error scaled by exactly 1 - (2 lr / out)(h.h + 1) |
| Cfc.StepScalesError | kaine/cfc_numpy.py:184-204 | the gradient step on weights and bias scales the error vector by that factor |
| Cfc.LossShrinksExactly | kaine/cfc_numpy.py:184-204 | the loss on the sample does not grow exactly when 0 <= lr (h.h + 1) <= out |
| Cfc.SafeRate | kaine/cfc_numpy.py:184-204 | for a bounded hidden state a rate of at most out / (units + 1) is safe |
| Cfc.RepeatedSteps | kaine/cfc_numpy.py:184-204 | repeated steps on one sample scale its error geometrically |
| TextLines.JoinSplit | kaine/secrets_file.py:200-201 | joining the lines of a text gives the text |
| TextLines.BlanksExactly | kaine/secrets_file.py:200-208 | the line breaks and the white space by their code points |
| TextLines.ResplitExactly | kaine/secrets_file.py:201-224 | joining lines and cutting again gives the same lines exactly when they are well split |
| LineEdits.ReplaceAndDelete | kaine/secrets_file.py:213-219 | replacing the first and deleting the others from the last on leaves one, and the rest in order |
| Sequences.FindBad | kaine/secrets_file.py:203-212 | the loop finds the first active line and all later ones |
| SecretsFile.UpsertEnv | kaine/secrets_file.py:189-224 | the edited text, or refusal of an invalid key or value |
| SecretsFile.WrittenWith | kaine/secrets_file.py:17-19 | the characters of keys and values |
| SecretsFile.AcceptedExactly | kaine/secrets_file.py:31-42 | which keys and values are accepted |
| SecretsFile.ActiveExactly | kaine/secrets_file.py:203-208 | a line sets the key exactly when it is white space, the key, "=" and anything |
| SecretsFile.SettingSays | kaine/secrets_file.py:203-217 | what it sets it to is all that follows the "=" without the line end |
| SecretsFile.UpsertedSettings | kaine/secrets_file.py:197-224 | on LF or CRLF text the key is set once, to the value, and every other key as before |
| SecretsFile.OtherLinesStay | kaine/secrets_file.py:197-224 | all other lines stay in order; a last line without an end gets one when a line is appended |
| SecretsFile.UpsertIdempotent | kaine/secrets_file.py:197-224 | setting the same value again leaves the same text |
| SecretsFile.ReplacedReadsBackExactly | kaine/secrets_file.py:59-64 | with any line ends, the edited text reads as the edited lines exactly when the replaced line ends in LF or nothing kept follows it, and no deletion joins CR and LF |
| AnyLineEnds.ReplacedOwnExactly | kaine/secrets_file.py:211-219 | in any text, after a replacement the key is set once, to the value, exactly when the replaced line had an LF or CRLF end or a new line or nothing follows it |
| AnyLineEnds.ReplacedOtherExactly | kaine/secrets_file.py:211-219 | and another key is set as before exactly when no deletion brings the CR that ends one of its settings before an LF |
| AnyLineEnds.AppendedExactly | kaine/secrets_file.py:220-222 | in any text, after an append every key is set as it should be exactly when the last line is not a setting of it that ends in CR |
| AnyLineEnds.UpsertedSettingsExactly | kaine/secrets_file.py:197-224 | in any text the edited text sets the key once, to the value, and every other key as before, exactly when the line ends hold: the two conditions together |
| AnyLineEnds.JoinedLines | kaine/secrets_file.py:59-64 | setting the first of two keys whose lines are separated by CR swallows the second: its setting is gone and its text is in the value |
| PrivacyFilter.ScrubClears | kaine/privacy_filter.py:172-207 | no content or vector key is left at any depth |
| PrivacyFilter.ScrubInventsNothing | kaine/privacy_filter.py:172-207 | the result is the payload with entries and items left out, in order, and nothing else |
| PrivacyFilter.CrossesWhole | kaine/privacy_filter.py:172-207 | everything comes through to which no name and no long list of numbers on the way bars it: an atom unchanged, a dict as a dict, a list or tuple as a list |
| PrivacyFilter.CrossedFrom | kaine/privacy_filter.py:172-207 | and nothing else does |
| PrivacyFilter.EmergesExactly | kaine/privacy_filter.py:164-207 | scrubbing turns a value into a numeric vector exactly when it is a mixed list |
| PrivacyFilter.TwoScrubsExactly | kaine/privacy_filter.py:172-207 | scrubbing by two sets of fields in turn is one scrub by both exactly when no mixed list stands where a vector would be dropped |
| PrivacyFilter.IdempotentExactly | kaine/privacy_filter.py:172-207 | the same condition decides idempotence |
| PrivacyFilter.StripThenContentExactly | kaine/privacy_filter.py:210-218 | the same condition decides whether stripping vectors first makes a difference |
| PrivacyFilter.VectorFreeExactly | kaine/privacy_filter.py:164-207 | no numeric vector is left exactly under that condition |
| PrivacyFilter.NestedVectorLeavesVector | kaine/privacy_filter.py:197-205 | twenty bare numbers and a nested vector come out as a vector |
| PrivacyFilter.DiagnosticsAreClear | kaine/privacy_filter.py:134-151 | the diagnostics event has the source, type, salience, time stamp and causal parent of the event and differs only in a payload without vector keys, and outside dev mode without content keys |
| PrivacyFilter.ShownNames | kaine/privacy_filter.py:134-151 | by name: no embedding is shown at any depth, and outside dev mode no text of the entity |
| PrivacyFilter.ShownWhole | kaine/privacy_filter.py:134-151 | every other value is shown as it is |

## Left out

- StateIoGuarantees.ExactlyOnceInLockOrder: an exception delivered asynchronously right after the rename returns, and writers that bypass the lock, are not modelled.
- LayerNormalizer.NormalizeConfigLayer: the nested tables are values, so the in-place edits of a deep copy, and references to its inner tables, are not captured; the warning texts and the identity of an unchanged layer are left out.
- LoadConfig.LoadMergedConfig: missing and unreadable files and the choice of the names are not modelled; an unreadable operator file is an absent layer.
- DeepMerge.DeepMerge: the order in which dict items are visited is arbitrary, and the order of keys in a merged dict is not modelled.
- ArchTokens.ArchListToEntries: white space, letters and digits are ASCII.
- WheelLadder.Ladder: reason and warning texts, companion versions other than their presence, and the operator override are left out.
- WordPiece.Tokenize: cleaning, lower-casing, accent stripping and the cutting at special tokens are parameters.
- DpoTraining.RunEpoch: the random seed, the reference context and the tokenizer are parts of the loss and gradient functions.
- Promotion.AbliterationVerdict: the search for a deflection pattern in a reply is a parameter.
- Promotion.StepInv: a leftover `current.swap` link and the contents of the adapter directory are not modelled.
- Perception.DesiredFile.Write: the runtime state file and its time stamps are left out.
- SecretsFile.UpsertEnv: the file lock, the private temporary file and the editing of TOML fields are left out.
- PrivacyFilter.TwoScrubsExactly: numbers are reals, and the copying of other values is not modelled.
- Cfc.NumpyReadout.SgdStep: float rounding and the non-finite cases are not modelled.
- `SharedEmbedder` delegates to the embedders modelled in Residency and adds no further protocol.
- Plugin loading and seam ownership: straight checks over one loop.
- The rocm, xpu and cpu resolvers, the probing of hosts and the decision table: host input and reporting.
- The BERT forward pass, the error-function approximation and model code: numeric libraries.
