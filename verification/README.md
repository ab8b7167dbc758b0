# Verified models of the CLI framework's core

This project models the parts of the framework whose correctness depends on more than one
function at a time, and proves what they are for. Each module follows one source file.

- **Command namespace.** `PathKeys`, `Namespace`, `Registration` and `CommandRegistry` model command
  paths, the string keys built from them, and `register_at` / `register_group`. The long list of
  checks turns out to be one symmetric conflict relation, from which follow order independence, unique
  owners and the prefix-free namespace. `ClapTree` and `Completion` are the two consumers that depend on
  that invariant: the subcommand tree handed to the parser and the shell completion model.
- **Configuration store.** `Migration` and `ConfigStore` are the store for one caller at a time.
  `StoreMachine` is the same store as a step relation: any number of threads, each a stack of calls and
  re-entrant subscriber callbacks, with one step per lock operation, backend access or callback.
  `StoreLocks`, `StoreDrain`, `StoreHistory`, `StoreCalls`, `StoreReads`, `StoreRounds`, `StorePolicy`,
  `StoreCoherence`, `StoreTold` and `StoreRaces` prove what holds in every reachable state and what does not.
- **Atomic file backend.** `TempNames`, `FileBackend`, `FileBackendProofs`, `FileBackendReads`,
  `FileBackendLeftovers` and `FileBackendCalls`: the
  write-temp, fsync, rename protocol over names, inodes and durable bytes, with any number of writers and
  chunked readers in any number of processes, failures of every system call, process crashes and power
  loss between any two steps.
- **MCP tools.** `McpTools`: what `tools/list` shows against what `tools/call` runs, and how the static
  tool map is made from the registry.
- **Smaller pieces.** `ClaimPath` (escaped claim paths), `Calendar` and `Timestamps` (day counts, dates and
  ISO 8601 text), `Doctor` (joining concurrent checks), `HelpLayout` (root help against hash-map order),
  `Environment` (environment variable declarations).
- `Wrappers`, `Integers`, `JsonValues`, `Sequences` and `TextOrder` hold what several modules share.

Every lemma carries `{:induction false}`: the proofs are the ones written down.

Where a promise of the documentation is not kept by the code in every case, the code is modelled as it is
and the exact condition is proved instead:

- An alias with a slash is taken literally and can sit below a command (`Registration.OutOfScopeBreaksPrefixFree`,
  `Registration.NamespaceIsPrefixFree`, witness `Registration.SlashAliasOutOfScope`); unique ownership and order
  independence hold regardless.
- The flat `register` does not check its id for slashes (`Registration.FlatRegister`, witness
  `Registration.FlatRegisterLetsADescendantIn`).
- Empty segments pass `CommandPath::new` and vanish when the parser tree is built (`ClapTree.ParserMatchesIffSpelled`,
  witness `ClapTree.EmptySegmentIsLost`); a group with one can turn a command's alias into a second name of a
  subcommand (`ClapTree.AliasesAreNoSubcommandsIff`, witness `ClapTree.AliasMayMeetGroup`); the automatic `version`
  subcommand can be ambiguous (`ClapTree.VersionClashesIff`, witness `ClapTree.VersionMayClash`).
- Two paths can share a completion key when a segment contains a space (`Completion.CommandOffersIffKeyShared`,
  witness `Completion.SpacesMixNodes`).
- The comment on `read_version` says that clamping keeps the too-new check correct. It does, except in a store
  at version `u32::MAX`, and a claim that does not fit in 64 bits reads as version 0 (`Migration.TooNewIsRefused`,
  witnesses `Migration.TooNewLetIn`).
- An empty encoding reads back as "nothing stored" (`ConfigStore.SaveThenLoad`, witness
  `ConfigStore.EmptyEncodingForgets`).
- `reload` and `resolve` do not serialize with `save`. Programs keep cache and backend together exactly when they
  never install and do not both save and refresh (`StoreRaces.KeepsCoherentIff`, witnesses
  `StoreRaces.RefreshOvertakesSave`); a program that does both keeps them together as long as no save writes between
  a refresh's read and its swap (`StoreCoherence.CoherentWithoutOverlap`).
- Values are announced after the locks have been given back, and saves and resolves announce nothing, so subscribers
  may have heard last what the cache no longer holds (`StoreRaces.TellsLatestIff`, witnesses
  `StoreRaces.InstallsAnnounceBackwards` and `StoreRaces.InstallAnnouncesAfterReload`).
- Underscores in command names can give two commands one MCP tool name, and hash order then decides
  (`McpTools.SameInEveryOrderIff`, witness `McpTools.UnderscoreCollides`).
- The doctor hands out panic messages in completion order: each reaches its own check under every schedule exactly
  when all panicking checks carry the same message (`Doctor.AlwaysOwnMessagesIff`, witness `Doctor.MessagesMaySwap`).
- Root help depends on hash order when two root commands share an id (`HelpLayout.SameLayoutIff`, witness
  `HelpLayout.SharedIdTies`).
- Timestamps sort as text up to the year 9999 (`Timestamps.TextSortsByTimeIff`).

## Model

| member | source | states |
|---|---|---|
| `TempNames.TempNamesDistinct` | src/config/file_backend.rs:90-91 | two write calls share a temporary name only if they are the same process and their counter values are at least 2^64 apart |
| `TempNames.TempNameShown` | src/config/file_backend.rs:91-91 | the name for "config.toml", process 42 and attempt 7 is "config.toml.tmp.42.7" |
| `TempNames.DecimalRoundTrip` | src/config/file_backend.rs:91-91 | a printed counter can be read back, so printing is injective |
| `FileBackendProofs.WritesAreAtomic` | src/config/file_backend.rs:63-138 | in every run of any number of writers, readers, failures and crashes the target is the initial document or all the bytes of the last successful call in force, it is on disk, and every completed read returned one such document whole |
| `FileBackendProofs.SuccessfulWritesAreKept` | src/config/file_backend.rs:74-138 | without a power loss the renames in force are exactly the calls that returned Ok, once each |
| `FileBackendLeftovers.NoTemporaryFileSurvives` | src/config/file_backend.rs:93-99 | in every run without a crash in which clean-ups succeed, a name in the directory is the target's, was there at first, or belongs to a call that has not returned |
| `FileBackendReads.ReadsSeeTheirOpening` | src/config/file_backend.rs:63-138 | in every run, with crashes and concurrent writers, a finished chunked read returns the target as it was at the step that opened it |
| `FileBackendReads.ReadsAreFresh` | src/config/file_backend.rs:63-138 | without a power loss, a read opened after a write returned Ok returns that document or one renamed over it later |
| `FileBackendProofs.LiveNamesDistinct` | src/config/file_backend.rs:90-91 | in every reachable state two live calls have different temporary names |
| `FileBackendProofs.WritersFileIsPrivate` | src/config/file_backend.rs:117-138 | a live writer's inode is reachable only under its own temporary name: no other writer and no published document uses it |
| `FileBackendProofs.PublishedBytesStep` | src/config/file_backend.rs:117-138 | no step changes an inode that has been renamed over the target |
| `FileBackendProofs.StepKeepsInv` | src/config/file_backend.rs:63-138 | every system call, failure and crash keeps the global invariant of directory, writers, readers and renames |
| `FileBackendProofs.RunKeepsInv` | src/config/file_backend.rs:63-138 | hence every run does |
| `FileBackendCalls.Disk.Do` | src/config/file_backend.rs:63-138 | one system call on the machine is one step of the state machine and leaves finished calls as they were |
| `FileBackendCalls.Disk.Write` | src/config/file_backend.rs:74-102 | Ok exactly when no system call fails; then the target is exactly the given bytes, on disk; on Err the target is untouched; and the temporary name is gone either way unless its removal fails |
| `FileBackendCalls.Disk.WriteAndRename` | src/config/file_backend.rs:117-138 | create, write, sync, rename; succeeds exactly when none of them fails, and a failure leaves the renames in force as they were |
| `FileBackendCalls.Disk.WriteAll` | src/config/file_backend.rs:124-127 | chunks of any sizes add up to the whole document exactly when the disk takes that many bytes |
| `FileBackendCalls.Disk.SyncAndRename` | src/config/file_backend.rs:128-138 | the rename happens only after the sync, takes the temporary name away and is recorded once; succeeds exactly when neither fails |
| `FileBackendCalls.Disk.Read` | src/config/file_backend.rs:63-72 | a chunked read returns the whole target, or nothing when it is missing |
| `StoreLocks.DeadlockFree` | src/config/store.rs:182-324 | in every reachable state of any number of threads, with subscribers calling back into the store, some unfinished thread can step |
| `StoreLocks.CallbacksRunUnlocked` | src/config/store.rs:250-324 | a thread in subscriber code, or waiting for its first lock, owns none of the store's three locks |
| `StoreLocks.StepKeepsInv` | src/config/store.rs:182-324 | every step keeps the lock discipline: who owns which lock follows from the call stacks, and locks nest in one order |
| `StoreLocks.InvMeansProgress` | src/config/store.rs:182-324 | the lock discipline alone implies that some unfinished thread can step |
| `StoreDrain.ComesToRest` | src/config/store.rs:182-324 | from every reachable state, without new calls the store takes at most a fixed number of steps, whatever callbacks subscribed before, and stops exactly when every call and callback has finished |
| `StoreDrain.StepDrains` | src/config/store.rs:182-324 | every step other than a new call uses up some of that number, counting subscriptions still under way |
| `StoreHistory.WriterSectionsSerialize` | src/config/store.rs:182-324 | whenever the write lock is free the backend is the encoding of the last successful save in lock order and, if nothing reloads or resolves, the cache is the value of the last committed section; failed saves leave no trace |
| `StoreCalls.SavesCommitOnce` | src/config/store.rs:182-209 | every save that returns has committed exactly once, in its last step: its stamped value if it answers Ok, a failure if not, and nothing exactly if it was refused before taking the lock |
| `StoreCalls.InstallsCommitOnce` | src/config/store.rs:296-324 | every install that returns has committed its value exactly once between its invocation and its return, whatever its callbacks do |
| `StoreCalls.RealTimeOrder` | src/config/store.rs:182-324 | writers linearise: the commit of a call that returned before another was made stands before the other's in the history that backend and cache follow |
| `StoreReads.CacheIsFresh` | src/config/store.rs:182-324 | without refreshes, at every step after a section has committed a value the cache holds that value, one committed later, or the one the open section commits next |
| `StoreReads.CurrentIsFresh` | src/config/store.rs:226-231 | so a `current` made after a save or an install has returned yields that value or a later one |
| `StoreReads.CurrentReadsLocked` | src/config/store.rs:226-231 | `current` copies the cache under the read lock, with no writer in it |
| `StoreReads.BackendIsFresh` | src/config/store.rs:182-209 | in every run, at every step after a save has committed the backend holds the encoding of that value, of one saved later, or of the one the open section commits next |
| `StoreReads.LoadIsFresh` | src/config/store.rs:133-135 | so a `load` made after a save has returned Ok reads that document or a later one |
| `StoreRounds.RoundsFollowSnapshots` | src/config/store.rs:250-324 | in every run each notification round was started by a call that, since it was made, had installed the round's value itself (and, for a reload, had read it from the backend before that); its snapshot is exactly the subscribers of that moment; it calls a prefix of them, in order, once each, with that value, and all of them when it is over |
| `StoreRounds.RunsExtend` | src/config/store.rs:182-324 | along every run subscriptions, commits, rounds and the calls they have made are never taken back or changed |
| `StorePolicy.OnlySavesReachTheBackend` | src/config/store.rs:182-324 | in every run the stored document is the first one or the encoding of a value some save was asked to store, never one only installed |
| `StorePolicy.FoldingStartsFromTheSameDocument` | src/config/handle.rs:98-131 | without saves, whatever is installed, a later fold starts from the same local document |
| `StoreCoherence.CoherentWithoutOverlap` | src/config/store.rs:182-265 | without installs, from a coherent start and with a codec that round-trips: if no save writes the backend between a refresh's read and its swap, then whenever the write lock is free loading the backend would give the cached value |
| `StoreRaces.KeepsCoherentIff` | src/config/store.rs:182-324 | programs can rely on cache and backend agreeing whenever the store is at rest exactly when they never install and do not both save and refresh (reload or resolve) |
| `StoreRaces.RefreshOvertakesSave` | src/config/store.rs:214-255 | for reload and for resolve, and any saved value: a run in which the refresh swaps in what it read before the save, ending at rest with backend and cache apart |
| `StoreRaces.KeepsSectionsIff` | src/config/store.rs:182-324 | the cache is the value of the last committed section at every free write lock exactly for programs that neither reload nor resolve |
| `StoreRaces.TellsLatestIff` | src/config/store.rs:250-324 | subscribers have always heard last what the cache holds at rest exactly for programs in which nobody subscribes, nothing announces, or only one value can ever be cached |
| `StoreRaces.InstallsAnnounceBackwards` | src/config/store.rs:296-324 | two installs that commit in one order and announce in the other, leaving subscribers with the older value |
| `StoreRaces.InstallAnnouncesAfterReload` | src/config/store.rs:250-324 | the same for an install and a reload |
| `Migration.SucceedsIffChainComplete` | src/config/store.rs:152-166 | migrating gives a result exactly when a complete chain of registered, succeeding migrations v, v+1, ..., current-1 ends in it |
| `Migration.TraceOf` | src/config/store.rs:152-166 | how far the chain gets, and that a failure names the first version without a working migration and its own reason |
| `Migration.TraceDetermines` | src/config/store.rs:152-166 | any partial chain determines what is left to do |
| `Migration.WriteVersion` | src/config/store.rs:35-42 | sets the version field of an object and keeps every other field; anything else stays as it is |
| `Migration.MigrationsSeeTheirVersion` | src/config/store.rs:35-42 | after the first, a migration finds its own from-version in the document exactly when it is handed an object |
| `Migration.StagedMigration` | src/config/store.rs:27-166 | stopping half way and going on equals going straight through; the version can be read back there exactly when the document is an object or nothing was migrated, and then reading it back first changes nothing |
| `Migration.StagingNeedsAnObject` | src/config/store.rs:27-166 | migrations to a non-object for which reading the version back does change the result |
| `Migration.TooNewIsRefused` | src/config/store.rs:27-150 | the clamp refuses exactly the later versions, unless the store is at the last 32-bit version or the claim exceeds 64 bits |
| `Migration.TooNewLetIn` | src/config/store.rs:27-33 | the claim 2^32 reads as u32::MAX, so a store at that version takes it for its own, and the claim 2^64 reads as version 0 |
| `ConfigStore.SaveThenLoad` | src/config/store.rs:133-209 | loading what was saved gives the stamped value back, exactly unless the encoding is empty and the value is not the default |
| `ConfigStore.EmptyEncodingForgets` | src/config/store.rs:133-140 | a lawful codec with an empty encoding, for which saving and loading back gives the default |
| `ConfigStore.LoadSaveLoad` | src/config/store.rs:133-209 | saving a loaded value and loading again changes nothing |
| `ConfigStore.LoadsIffMigrated` | src/config/store.rs:133-174 | load answers a value exactly when the bytes decode, the version is not too new, every migration from it on is there and succeeds in turn, and the last document converts to that value, restamped |
| `ConfigStore.LoadFailsIffStopped` | src/config/store.rs:133-174 | each error of load is answered exactly when its obstacle is the first one met |
| `ConfigStore.Store.constructor` | src/config/store.rs:71-87 | the cache starts as the stamped default |
| `ConfigStore.Store.WithMigration` | src/config/store.rs:92-104 | registers one migration per version, the last one winning |
| `ConfigStore.Store.Load` | src/config/store.rs:133-174 | the loop computes the migration chain, stays within 32 bits, classifies each failure and changes nothing |
| `ConfigStore.Store.Save` | src/config/store.rs:182-209 | on success backend and cache both hold the stamped value; on failure neither changes; exactly when it succeeds |
| `ConfigStore.Store.Resolve` | src/config/store.rs:214-221 | the cache takes what was loaded, or stays |
| `ConfigStore.Store.Reload` | src/config/store.rs:250-265 | on success the cache is replaced and every subscriber gets the value once, in order; on failure nothing happens |
| `ConfigStore.Store.Subscribe` | src/config/store.rs:269-274 | appends one subscriber |
| `ConfigStore.Store.Notify` | src/config/store.rs:315-323 | the calls made are the snapshot, in order, with the value |
| `ConfigStore.Store.SetCurrentAndNotify` | src/config/store.rs:296-324 | replaces the cache and notifies, with the backend outside its frame |
| `ConfigStore.Store.CurrentJson` | src/config/handle.rs:98-104 | with a lawful codec the JSON returned decodes to the cached value again |
| `ConfigStore.Store.BackendJson` | src/config/handle.rs:107-113 | a function of the stored bytes and migrations, not of the cache |
| `ConfigStore.Store.SaveJson` | src/config/handle.rs:115-121 | saves what the JSON decodes to, and changes nothing on failure |
| `ConfigStore.Store.SetCurrentJsonAndNotify` | src/config/handle.rs:124-131 | installs what the JSON decodes to, or refuses it and changes nothing |
| `ConfigStore.Store.ApplyPolicy` | src/config/managed/mod.rs:227-248 | the installed value is the fold of the stored document alone |
| `ConfigStore.Store.ApplyPolicies` | src/config/managed/mod.rs:227-248 | policies applied in sequence leave no residue: the last that applies decides |
| `PathKeys.SplitJoin` | src/spec/command_tree.rs:324-345 | splitting undoes joining on non-empty paths, so keys are injective |
| `PathKeys.AboveIsProperPrefix` | src/command/registry.rs:270-276 | a key starts with "{p}/" exactly when p is a proper prefix of its path |
| `PathKeys.AncestorsAreAbove` | src/command/registry.rs:261-268 | the joined prefixes looked up are exactly the keys above |
| `PathKeys.SiblingAncestors` | src/command/registry.rs:305-313 | a relative alias has the same ancestors as its command |
| `Namespace.CommandAdmittedIffCompatible` | src/command/registry.rs:146-205 | the checks of register_at amount to one symmetric conflict relation with every registered item |
| `Namespace.GroupAdmittedIffCompatible` | src/command/registry.rs:80-103 | so do the checks of register_group, with the same relation |
| `Namespace.AllAliases` | src/command/registry.rs:175-175 | an alias is checked exactly when it is among the visible or the hidden ones |
| `Registration.AdmittedIffCompatible` | src/command/registry.rs:80-205 | one call passes the source's checks exactly when its item conflicts with nothing registered |
| `Registration.RunAddsItems` | src/command/registry.rs:80-205 | a list of calls, each checked as the source checks it, adds exactly what the conflict relation lets in |
| `Registration.RunSucceedsIff` | src/command/registry.rs:80-205 | a list of register_at and register_group calls is accepted exactly when its items are pairwise free of conflicts with each other and what was there, and then exactly these are added |
| `Registration.OrderIndependent` | src/command/registry.rs:80-205 | two orders of the same register_at and register_group calls are both accepted with the same registry, or both refused |
| `Registration.AddKeepsValid` | src/command/registry.rs:80-205 | an accepted item keeps all registered items pairwise free of conflicts |
| `Registration.RunKeepsValid` | src/command/registry.rs:80-205 | so does every accepted list of calls |
| `Registration.NamesHaveOneOwner` | src/command/registry.rs:80-205 | every canonical or alias path belongs to at most one command, for any aliases |
| `Registration.AliasesHaveOneOwner` | src/command/registry.rs:174-201 | a visible or hidden alias of one command is neither the path nor a visible or hidden alias of another |
| `Registration.SharedAliasRefused` | src/command/registry.rs:174-201 | calls whose commands qualify to a common alias, visible or hidden, are never all accepted |
| `Registration.NamespaceIsPrefixFree` | src/command/registry.rs:80-205 | after accepted calls with aliases in scope no name is, or is above, another item's name, and a further call passes the source's checks exactly when that stays so |
| `Registration.ConflictIsOverlap` | src/command/registry.rs:146-205 | on items in scope the conflict relation is exactly overlap of names |
| `Registration.RelativeAliasesInScope` | src/command/registry.rs:305-313 | aliases without a slash are always in scope |
| `Registration.OutOfScopeBreaksPrefixFree` | src/command/registry.rs:306-308 | for every command out of scope there is a call before it such that both are accepted and the namespace is not prefix-free |
| `Registration.SlashAliasOutOfScope` | src/command/registry.rs:306-308 | the command "c" with the alias "x/y" is one |
| `Registration.FlatRegister` | src/command/registry.rs:58-62 | registering an unchecked id keeps the namespace valid exactly when its split path would have been accepted |
| `Registration.FlatRegisterLetsADescendantIn` | src/spec/command_tree.rs:338-340 | an id "a/b" is let in below the command "a" |
| `CommandRegistry.ChildKey` | src/command/registry.rs:235-259 | the prefix-and-no-slash test finds exactly the direct children |
| `CommandRegistry.CommandRegistry.RegisterAt` | src/command/registry.rs:146-205 | accepts exactly the admitted commands, adds just that one, and otherwise names a real obstacle, collisions first, and changes nothing |
| `CommandRegistry.CommandRegistry.RegisterGroup` | src/command/registry.rs:80-103 | the same for groups |
| `CommandRegistry.CommandRegistry.RegisterAll` | src/command/registry.rs:80-205 | a loop of calls on the object succeeds exactly when the specified run does, ends in its registry, and keeps the namespace valid even when it stops at a refusal |
| `CommandRegistry.CommandRegistry.Resolve` | src/command/registry.rs:225-227 | on a well-formed path: the command whose key splits into that path, found exactly when there is one |
| `CommandRegistry.CommandRegistry.ListChildren` | src/command/registry.rs:235-259 | the direct children in segments |
| `CommandRegistry.CommandRegistry.CommandAncestor` | src/command/registry.rs:261-268 | the shortest proper prefix that is a command, if any |
| `CommandRegistry.CommandRegistry.PathHasDescendants` | src/command/registry.rs:270-276 | whether any command or group is below the path |
| `CommandRegistry.CommandRegistry.ExistingAliasForPath` | src/command/registry.rs:278-295 | an alias that qualifies to the path and its command, found exactly when there is one |
| `CommandRegistry.CommandRegistry.ExistingAliasAncestor` | src/command/registry.rs:297-302 | the same for the proper prefixes of a path |
| `CommandRegistry.CommandRegistry.AliasObstacle` | src/command/registry.rs:174-201 | what stands in the way of a new alias, exactly when something does |
| `ClapTree.InsertMakesNodes` | src/app/clap_adapter.rs:28-51 | inserting adds exactly the prefixes of a path and one command |
| `ClapTree.BuildTree` | src/app/clap_adapter.rs:82-90 | in any order the tree has exactly the prefixes of registered paths and carries every command |
| `ClapTree.RootLeaves` | src/app/clap_adapter.rs:122-154 | the parser has a command leaf exactly at childless nodes that carry it |
| `ClapTree.RootNodes` | src/app/clap_adapter.rs:122-154 | the parser has a subcommand exactly at nodes that have children or carry a command |
| `ClapTree.ParserMatchesIffSpelled` | src/app/clap_adapter.rs:82-222 | over a valid registry the parser's leaves are exactly what resolve gives, path by path, if and only if no key loses an empty segment it needs |
| `ClapTree.EmptySegmentIsLost` | src/app/clap_adapter.rs:82-90 | a command at the accepted path a, "", b makes a valid registry that the parser does not match |
| `ClapTree.RegisteredCommandIsLeaf` | src/app/clap_adapter.rs:122-154 | no command is lost to the branch in which children win |
| `ClapTree.LeafIsRegisteredCommand` | src/app/clap_adapter.rs:205-222 | walking to a leaf gives a path that resolve maps to the same command |
| `ClapTree.AliasesAreNoSubcommandsIff` | src/app/clap_adapter.rs:82-198 | where the parser matches the registry, no alias of a subcommand is the name of another subcommand beside it exactly when no command's relative alias is a proper prefix of a group once the group's empty segments are dropped |
| `ClapTree.AliasesAreNoNodesIff` | src/app/clap_adapter.rs:82-198 | the same for nodes of the tree, with prefixes of a group |
| `ClapTree.SpelledGroupsMeetNone` | src/app/clap_adapter.rs:82-90 | groups without empty segments are met by no alias |
| `ClapTree.AliasMayMeetGroup` | src/app/clap_adapter.rs:82-90 | the group "a//b/c" beside the command "a/x" with the alias "b" is a valid registry in which the alias is also a subcommand |
| `ClapTree.SiblingAliasesDiffer` | src/app/clap_adapter.rs:189-198 | two subcommands side by side share no alias |
| `ClapTree.VersionClashesIff` | src/app/clap_adapter.rs:105-117 | the added version subcommand is ambiguous exactly when something is registered below "version", empty segments dropped, or has it as an alias |
| `ClapTree.VersionMayClash` | src/app/clap_adapter.rs:105-117 | a command at "version/x" makes a valid registry in which it does clash |
| `Completion.CompletionModel.InsertPath` | src/app/builder.rs:2706-2722 | adds exactly the prefixes of one path, each offering the next segment |
| `Completion.CompletionModel.InsertGroups` | src/app/builder.rs:2655-2660 | the nodes are the prefixes of the visible groups |
| `Completion.CompletionModel.InsertCommands` | src/app/builder.rs:2662-2686 | visible commands add their prefixes and their own flags |
| `Completion.CompletionModel.Build` | src/app/builder.rs:2651-2693 | the nodes are exactly the prefix closure of visible paths with their subcommands and flags, plus --help |
| `Completion.ModelIsUnique` | src/app/builder.rs:2651-2693 | one registry has one model, whatever the iteration order |
| `Completion.HiddenStaysOut` | src/app/builder.rs:2651-2693 | a node is there exactly for the root and the prefixes of keys that are not hidden, and its flags are --help and those of the commands at it that are not hidden |
| `Completion.OfferedAreShown` | src/app/builder.rs:2651-2722 | a subcommand is offered exactly when it is the next segment of a key that is not hidden |
| `Completion.OfferedSubcommandsExist` | src/app/builder.rs:2706-2722 | every offered subcommand leads to a node |
| `Completion.NodesAreReachable` | src/app/builder.rs:2651-2722 | every node is reached from the root by offered subcommands |
| `Completion.CommandOffersIffKeyShared` | src/app/builder.rs:2651-2722 | over a valid registry a command's node offers a subcommand exactly when a different path has the same space-joined key |
| `Completion.CommandNodesOfferNoSubcommands` | src/app/builder.rs:2651-2722 | hence never without spaces |
| `Completion.SpaceKeyInjective` | src/app/builder.rs:2696-2702 | space-free segments can be read back from the key |
| `Completion.SpacesMixNodes` | src/app/builder.rs:2696-2722 | a valid registry in which "a b" and "a/b" share a node |
| `McpTools.FirstOffer` | src/mcp/mod.rs:1057-1065 | the first provided tool of a name, or none exactly when there is none |
| `McpTools.ListTools` | src/mcp/mod.rs:514-519 | every static tool once, described from its own command |
| `McpTools.ListToolsForIdentity` | src/mcp/mod.rs:546-597 | the static block, then the offers that are neither static nor repeated, in the provider's order |
| `McpTools.AppendedInOrder` | src/mcp/mod.rs:564-594 | the appended entries stand in the order in which the provider first offered their names |
| `McpTools.ListAgreesWithDispatch` | src/mcp/mod.rs:1057-1074 | for every static map and provider result no name is listed twice, a name is listed exactly when a call of it runs something, and its meta, visibility and (without a presentation) description and schema are those of the command that runs |
| `McpTools.FromCommandRegistry` | src/mcp/mod.rs:223-247 | the tool names are exactly the app name and the segments, joined by underscores, of the commands that are not the framework's completion, not at or below "auth" and, where the policy asks for it, marked for export; each tool runs such a command of its name |
| `McpTools.SameInEveryOrderIff` | src/mcp/mod.rs:232-247 | the tool map is the same for every hash order exactly when no two different exported commands share a tool name |
| `McpTools.EachUnderItsNameIff` | src/mcp/mod.rs:232-247 | every exported command runs under its own tool name exactly under the same condition |
| `McpTools.NoUnderscoresApart` | src/mcp/mod.rs:245-246 | keys without underscores never share a tool name |
| `McpTools.UnderscoreCollides` | src/mcp/mod.rs:245-246 | "a/b" and "a_b" do not conflict in the registry and collide as tools |
| `ClaimPath.Parse` | cli-framework-oidc/src/claim_path.rs:30-62 | the loop computes the specified parse, and what it accepts prints back to the input |
| `ClaimPath.ParseAfterPrint` | cli-framework-oidc/src/claim_path.rs:30-62 | parsing undoes canonical escaping on every list of non-empty keys |
| `ClaimPath.ParsesIffPrinted` | cli-framework-oidc/src/claim_path.rs:30-62 | a string parses to a list exactly when it is that list's printed form: a bijection |
| `ClaimPath.FailsIffObstacle` | cli-framework-oidc/src/claim_path.rs:35-60 | each error is reported exactly when its obstacle is the first one met |
| `ClaimPath.PathsShown` | cli-framework-oidc/src/claim_path.rs:103-116 | a dot separates keys, an escaped dot does not, and an escaped backslash is one |
| `ClaimPath.Strings` | cli-framework-oidc/src/claim_path.rs:74-90 | a string where the keys lead is returned alone, an array as its strings at their places in order, and anything else, or a path that leads nowhere, as nothing |
| `ClaimPath.NestedClaims` | cli-framework-oidc/src/claim_path.rs:30-90 | nesting claims under a key and prefixing the escaped key to the path cancel out |
| `Calendar.DaysToYmd` | src/auth/commands.rs:470-506 | the two loops return the valid date with that closed-form day count, at most one year per 365 days |
| `Calendar.YearStep` | src/auth/commands.rs:473-481 | the closed form with its 4/100/400 terms advances by the length of each year |
| `Calendar.CountOrdersDates` | src/auth/commands.rs:470-510 | day counts order dates, both ways, so counting is injective |
| `Calendar.DatesAndCountsAgree` | src/auth/commands.rs:470-510 | dates and counts are inverse, each count's date is the day after the one before, and order is kept |
| `Timestamps.FormatUnixAsIso8601` | src/auth/commands.rs:455-467 | the text of the fields of the instant |
| `Timestamps.FieldsOf` | src/auth/commands.rs:457-465 | the fields are in range and recombine to the seconds |
| `Timestamps.FieldsOrderInstants` | src/auth/commands.rs:455-467 | splitting and recombining are inverse, and fields compare as instants do |
| `Timestamps.TextSortsByTimeIff` | src/auth/commands.rs:466-466 | texts sort as instants do below a limit exactly when the limit is not past the year 10000 |
| `Timestamps.TextIsInjective` | src/auth/commands.rs:466-466 | different instants have different texts, without any limit |
| `Timestamps.TextReadsBack` | src/auth/commands.rs:466-466 | before the year 10000 the text has the punctuation of section 5.6 of RFC 3339 in its places and the digits of the fields between |
| `Doctor.FromFindings` | src/doctor/runner.rs:17-37 | the counters are the counts by severity and add up to the findings |
| `Doctor.RunAll` | src/doctor/runner.rs:72-122 | one finding per check, in registration order, for every completion order; errors counts the panicked checks and the finished ones that report an error, and the other counters the finished ones of their kind |
| `Doctor.FillPanicked` | src/doctor/runner.rs:100-114 | the slots left empty take the collected messages in turn |
| `Doctor.FindingsByOrder` | src/doctor/runner.rs:85-114 | finished checks report their own finding whatever the order; panicked ones an Error under their own id and title, with a DR002 text that names the id and ends in the message of a check that panicked |
| `Doctor.MessagesConserved` | src/doctor/runner.rs:86-114 | the messages shown are, as a multiset, the messages the checks panicked with |
| `Doctor.AlwaysOwnMessagesIff` | src/doctor/runner.rs:72-122 | every panicked check shows its own message under every completion order exactly when all panicking checks carry the same message |
| `Doctor.OwnMessagesIff` | src/doctor/runner.rs:100-114 | under one completion order they do exactly when messages arrive as in registration order |
| `Doctor.MessagesMaySwap` | src/doctor/runner.rs:100-114 | two checks whose messages are swapped |
| `HelpLayout.GroupBySection` | src/cli_output/help.rs:124-129 | the sections are those of the entries, each with its entries in the order met |
| `HelpLayout.SectionsTotallyOrdered` | src/cli_output/help.rs:132-149 | the section comparator is a total order on names |
| `HelpLayout.RowsOrdered` | src/cli_output/help.rs:164-173 | the entry comparator is a total preorder whose ties have equal order and id |
| `Sequences.OnlyStableSort` | src/cli_output/help.rs:132-173 | every stable sort by a total preorder gives the sequence the model's sort gives |
| `HelpLayout.SectionsSettled` | src/cli_output/help.rs:131-149 | section names come out in one order for all hash orders |
| `HelpLayout.LayoutInOrder` | src/cli_output/help.rs:129-173 | configured sections come first and in configured order, the others by name without case, "Other" last; lines go by help order, then by id without case, then by id |
| `HelpLayout.LayoutShowsExactly` | src/cli_output/help.rs:101-129 | a line is in a section exactly when a visible root command or root group has that id, summary, order and category |
| `HelpLayout.LayoutShowsOnce` | src/cli_output/help.rs:101-129 | a section has one line for each of its visible root commands and groups |
| `HelpLayout.SameLayoutIff` | src/cli_output/help.rs:101-189 | the layout is the same for every order of the three hash maps exactly when no two visible root commands of a section share order and id but differ in summary |
| `HelpLayout.SharedIdTies` | src/cli_output/help.rs:103-110 | two root paths whose commands carry one id make a valid registry whose help depends on hash order |
| `HelpLayout.OwnIdsNeverTie` | src/cli_output/help.rs:103-110 | root commands registered under their own id are never tied |
| `HelpLayout.CollectEntries` | src/cli_output/help.rs:101-122 | visible root commands, then visible root groups |
| `HelpLayout.RenderSections` | src/cli_output/help.rs:151-189 | the loops print the layout |
| `HelpLayout.SummariesAlign` | src/cli_output/help.rs:175-187 | a line is its id, at least two spaces and its summary, and the summaries of a section start in one column |
| `HelpLayout.SectionHeaded` | src/cli_output/help.rs:157-162 | a configured section is headed as written, any other in title case |
| `HelpLayout.LinesInOrder` | src/cli_output/help.rs:178-187 | lines are printed from first to last |
| `HelpLayout.SectionsInOrder` | src/cli_output/help.rs:152-189 | so are sections |
| `HelpLayout.ByteLengthShown` | src/cli_output/help.rs:175-181 | widths are in bytes of the UTF-8 form |
| `HelpLayout.SameText` | src/cli_output/help.rs:101-189 | hence one text for every iteration order |
| `HelpLayout.SetHelpSectionOrder` | src/command/registry.rs:120-127 | the configured order is the list without its repeats |
| `HelpLayout.DedupedRanks` | src/command/registry.rs:116-139 | every label is kept once, and which of two comes first is kept |
| `Environment.EnvironmentVariableRegistry.Insert` | src/environment.rs:50-78 | the three refusals in order, and the entry added only when absent |
| `Environment.EnvironmentVariableRegistry.Register` | src/environment.rs:23-30 | an insert that reports conflicts |
| `Environment.EnvironmentVariableRegistry.RegisterIfAbsent` | src/environment.rs:42-48 | never displaces an entry and never reports a conflict |
| `Environment.EnvironmentVariableRegistry.RegisterCommands` | src/environment.rs:81-91 | collects all declarations or reports the first refusal, keeping every earlier entry |
| `Environment.CollectsIff` | src/environment.rs:23-91 | collecting succeeds exactly when all declarations are non-blank and agree per name with each other and with what is there, and then adds exactly them |
| `Environment.RefusalsBlame` | src/environment.rs:50-78 | a refusal names a blank name, a blank description, or two different descriptions of one name in the order they came |
| `Environment.OrderDoesNotMatter` | src/environment.rs:81-91 | permuted or repeated declarations succeed alike with the same entries |
| `Environment.TableOrderDoesNotMatter` | src/environment.rs:81-91 | so do all orders of the command table |
| `Environment.FrameworkKeepsEntries` | src/environment.rs:42-48 | framework declarations change no entry, and the first proper one of a new name wins |
| `Environment.ErrorDependsOnOrder` | src/environment.rs:56-63 | which error is reported does depend on the order |
| `Environment.BlankShown` | src/environment.rs:56-63 | what counts as blank |

## Left out

- AppBuilder, App and feature gating: wiring over modules that are not part of this model.
- The clap matcher, parse errors and suggestions, and the text of completion scripts: library behaviour and shell text.
- The order in which the parser's help lists subcommands (`sort_children_by_help_order`): it would repeat the ordering argument of `HelpLayout`.
- ClapTree.BuildTree: the tree of owned nodes is updated as a value, not in place; there is no aliasing to capture.
- Serialization formats, serde, TOML and the registry backend: encoding and decoding are abstract functions with an inverse law.
- How flag tokens are derived from argument specifications: a command carries its set of tokens.
- The policy resolver, managed client and retry logic: a policy is an arbitrary function on the stored document.
- Lock poisoning and panicking subscribers: callbacks return; the backend, codec and migrations do not call the store.
- Fairness of the scheduler: the store machine says that some thread can step and how many steps are left, not which thread the system runs. Callbacks that call the store for ever are allowed and never finish.
- FileBackendCalls.Disk.Write: one call runs without interleaving there; interleavings are the subject of `FileBackendProofs`. Creating the parent directory, hard links and a path without a file name are not modelled.
- FileBackendProofs.LiveNamesDistinct: assumes that no process starts 2^64 further writes while one call is in progress, which the step that begins a call requires.
- FileBackendProofs.WritesAreAtomic: the directory is never synced by the code, so a power loss may take back a rename that the system had not flushed; the theorem then speaks of the renames that are left. Power loss is assumed to leave every inode at most one name and no published inode under a temporary one, as a file system with atomic renames does: a temporary name that survived on the target's inode would be truncated by the next `File::create` under the same process id and counter.
- CommandRegistry.CommandRegistry.RegisterAt: which of several alias obstacles is named depends on hash order and is not determined.
- CommandRegistry.CommandRegistry.ListChildren: returns a set and asks for slash-free segments, as `CommandPath::new` does.
- StoreHistory.WriterSectionsSerialize: the cache half excludes runs that reload or resolve, which do not take the write lock; `StoreRaces.KeepsSectionsIff` shows that it has to.
- McpTools: authentication, risk policy, gates, telemetry and the derivation of input schemas.
- Doctor: `run_filtered` and the loop in `src/doctor/command.rs`, which fill the first empty slot while other checks still run, and cancelled tasks.
- HelpLayout: the header, options and environment blocks of the text, which do not depend on any hash map; title case is an arbitrary function.
- HelpLayout.SameLayoutIff: speaks of sections and lines; summaries that contain line breaks can make two different layouts print alike.
- ClaimPath: the wording of error messages, which repeat the raw input.
- Timestamps: leap seconds, which Unix time does not count.
- HTTP, OIDC network flows, API routers, macros, banners, tables and progress output.
