# Builder kernels of java-builder, modelled in Dafny

This project models the core of `com.banjocreek.riverbed.builder`, a Java
library of generic builders. Its parts are:

- **Mutable builder.** It owns one state. Each posted delta replaces the
  state with `mutator(state, delta)`, and `merge` hands the state to a
  constructor.
- **Persistent (immutable) builder.** Each posting operation returns a new
  builder that holds one more link of a shared, backward-linked delta chain.
  `build` and `done` replay the chain, oldest delta first, over a fresh
  initial state. They then apply the root or the parent constructor.
- **Map kernel.** It has a hash variant and an enum variant. It keeps three
  things: the defaults, the explicitly set entries, and the set of keys whose
  default has been overridden. Its merge is the defaults of keys not
  overridden, overlaid with the entries.
- **Map deltas.** These are defaults, values, remove, reset, reset-all,
  clear, update and the do-nothing `Nop`. They are immutable values.
  Every delta constructor except update's rejects null keys; the update
  constructors check no key. `applyTo` calls the matching kernel operation.
- **Map builders.** There are mutable and persistent hash-map builders and a
  mutable enum-map builder. Each posting operation builds a delta and
  applies it. An empty collection or map posts `Nop`.
- **List builders.** Mutable and persistent list builders post the list
  operations add, addAll and clear.

Everything is pure. A builder is a datatype value, and a posting operation
returns the next one. A Java null key is `None` of an `Option`. A thrown
exception is the `Failure` of a `Result`. `NullKey` stands for a
NullPointerException. `EmptyCopy` stands for the IllegalArgumentException
that an enum set or enum map copy of an empty plain collection throws.

The module layout follows the source:

- `MutableBuilder` and `ImmutableBuilder` are the generic builders.
  `Folding` is the replay both share, and `TextExample` holds the
  string-appending collaborators of their "Hi World" examples.
- `MapKernel` is the hash kernel, `MapDelta` the map deltas, and `MapHelper`
  the map helper.
- `MapGenerators` holds the empty-input shortcuts.
- `MutableMapBuilder` and `ImmutableMapBuilder` are the hash-map builders.
- `EnumMapKernel`, `EnumDelta`, `EnumHelper` and `MutableEnumMapBuilder` are
  the enum variants.
- `ListOp`, `MutableListBuilder` and `ImmutableListBuilder` are the list
  builders.
- `EnumCopies` covers the `EnumSet`/`EnumMap` copy behaviour the deltas rely
  on.

`MapSemantics` is a reference for what a history of map deltas means, key by
key. For a given key, the latest delta that sets, removes, updates or resets
it decides an explicit status. Without one, the latest default registered
since the key's last reset shows. `MapSemantics.ReplayMatchesReference`
proves that the kernel's merge agrees with this reference after every
history. The builders' `PostingFollowsReference` and `ResultsFollowReference`
lemmas carry that agreement up to `merge`, `build` and `done`.

## Model

| member | source | states |
|---|---|---|
| EnumCopies.SetOf | src/main/java/com/banjocreek/riverbed/builder/map/Remove.java:32-34 | a single-key enum set exists exactly for a non-null key, with a null-key error otherwise, and holds just that key |
| EnumCopies.SetCopyOf | src/main/java/com/banjocreek/riverbed/builder/map/Remove.java:28-30 | copying a collection into an enum set fails exactly when it is empty (empty-copy error) or holds null (null-key error); otherwise its members are the non-null elements, duplicates collapsed |
| EnumCopies.MapCopyOf | src/main/java/com/banjocreek/riverbed/builder/enummap/Defaults.java:32-34 | copying a plain map into an enum map fails exactly when it is empty or has a null key, telling the two errors apart; otherwise keys and values are carried over |
| EnumCopies.SingletonMapCopy | src/main/java/com/banjocreek/riverbed/builder/enummap/Defaults.java:28-30 | an enum map from one pair fails only for a null key and otherwise maps that key to the value |
| Folding.FoldAppend | src/main/java/com/banjocreek/riverbed/builder/AbstractImmutableBuilder.java:69-77 | replaying a concatenated history equals replaying the second part on the state left by the first, so earlier work is neither redone nor lost |
| Folding.FoldSingle | src/main/java/com/banjocreek/riverbed/builder/AbstractImmutableBuilder.java:72-75 | a one-delta history is a single mutator call on the initial state |
| MutableBuilder.New | src/main/java/com/banjocreek/riverbed/builder/AbstractMutableBuilder.java:33-39 | the state starts as the initializer value and mutator and constructor are kept as given |
| MutableBuilder.Apply | src/main/java/com/banjocreek/riverbed/builder/AbstractMutableBuilder.java:48-52 | an apply replaces the state by the mutator of old state and delta, and keeps the collaborators |
| MutableBuilder.ApplyAll | src/main/java/com/banjocreek/riverbed/builder/AbstractMutableBuilder.java:48-52 | a sequence of applies leaves the left fold of the deltas in posting order |
| MutableBuilder.PostingIsLeftFold | src/main/java/com/banjocreek/riverbed/builder/MutableBuilder.java:20-48 | merge after any postings hands the constructor the left fold from the initializer value |
| MutableBuilder.AppliesAfterMergeContinue | src/main/java/com/banjocreek/riverbed/builder/MutableBuilder.java:27-30 | merging never clears state: applies after a merge continue from the state the merge observed |
| MutableBuilder.AppendsInPostingOrder | src/test/java/pgmr/com/banjocreek/riverbed/builder/MutableBuilderTest.java:38-56 | posting "Hi" then " World" over the empty string merges to "Hi World" |
| ImmutableBuilder.Fold | src/main/java/com/banjocreek/riverbed/builder/AbstractImmutableBuilder.java:69-77 | the recursive fold over the backward-linked chain equals the left fold of its deltas oldest first |
| ImmutableBuilder.NewRoot | src/main/java/com/banjocreek/riverbed/builder/AbstractImmutableBuilder.java:45-57 | a root has an empty chain, so its replay is exactly the initializer value |
| ImmutableBuilder.Derive | src/main/java/com/banjocreek/riverbed/builder/AbstractImmutableBuilder.java:36-43 | a derived builder adds one delta after its predecessor's history and shares all collaborators |
| ImmutableBuilder.Build | src/main/java/com/banjocreek/riverbed/builder/AbstractImmutableBuilder.java:59-62 | build is the root constructor of the replay of exactly this builder's history |
| ImmutableBuilder.Done | src/main/java/com/banjocreek/riverbed/builder/AbstractImmutableBuilder.java:64-67 | done is the parent constructor of the same replay |
| ImmutableBuilder.DeriveAll | src/main/java/com/banjocreek/riverbed/builder/AbstractImmutableBuilder.java:36-43 | chained derivations extend the history by exactly the posted deltas, in order, and replay on top of the original state |
| ImmutableBuilder.DescendantSharesPrefix | src/main/java/com/banjocreek/riverbed/builder/ImmutableBuilder.java:20-52 | persistence: a builder's history is a prefix of every descendant's, and its own results are unchanged by any extension |
| ImmutableBuilder.AppendsInPostingOrder | src/test/java/pgmr/com/banjocreek/riverbed/builder/ImmutableBuilderTest.java:88-107 | two derivations "Hi", " World" from an empty-string root give "Hi World" through both constructors |
| MapKernel.Merge | src/main/java/com/banjocreek/riverbed/builder/map/HashMapKernel.java:53-72 | the merge holds every entry, and a default only for keys neither seen nor entered |
| MapKernel.MergeAt | src/main/java/com/banjocreek/riverbed/builder/map/HashMapKernel.java:53-72 | per key: an entry wins, a seen key without an entry is absent, otherwise the default shows |
| MapKernel.FreshIsEmpty | src/main/java/com/banjocreek/riverbed/builder/map/HashMapKernel.java:27-44 | a new kernel is empty, valid and merges to the empty map |
| MapKernel.Defaults | src/main/java/com/banjocreek/riverbed/builder/map/HashMapKernel.java:46-51 | defaults overlay earlier defaults, touch nothing else, and change the merge only at unseen keys they name |
| MapKernel.Values | src/main/java/com/banjocreek/riverbed/builder/map/HashMapKernel.java:82-88 | values overlay the entries and mark their keys seen; each named key merges to its new value, others are unchanged |
| MapKernel.Remove | src/main/java/com/banjocreek/riverbed/builder/map/HashMapKernel.java:74-80 | removed keys leave the entries and are marked seen, so they are absent from the merge whatever the defaults; others are unchanged |
| MapKernel.Reset | src/main/java/com/banjocreek/riverbed/builder/map/Reset.java:40-43 | reset keys merge to their current default or are absent; other keys keep their merge |
| MapKernel.ResetAll | src/test/java/pgmr/com/banjocreek/riverbed/builder/map/MutableMapBuilderTest.java:394-417 | after resetAll the merge is exactly the registered defaults |
| MapKernel.Clear | src/test/java/pgmr/com/banjocreek/riverbed/builder/map/MutableMapBuilderTest.java:43-61 | clear forgets everything, defaults included |
| MapKernel.Updates | src/main/java/com/banjocreek/riverbed/builder/map/Update.java:37-42 | each updated key merges to its transform of its previous merged value; other keys keep theirs |
| MapKernel.UpdatesNothing | src/main/java/com/banjocreek/riverbed/builder/map/Update.java:37-42 | an update with no transforms leaves the kernel as it was |
| MapKernel.LaterDefaultsWin | src/main/java/com/banjocreek/riverbed/builder/map/MapKernel.java:25-40 | two defaults calls equal one with the later map overlaid on the earlier |
| MapKernel.DefaultsCommute | src/main/java/com/banjocreek/riverbed/builder/map/MapKernel.java:25-40 | defaults commute with values, remove and reset |
| MapKernel.ValuesRemoveLastWins | src/main/java/com/banjocreek/riverbed/builder/map/MapKernel.java:44-61 | between values and remove of one key the later call decides presence |
| MapDelta.RequireKeys | src/main/java/com/banjocreek/riverbed/builder/map/Helper.java:37-41 | fails exactly when the key set contains null, otherwise passes every key through |
| MapDelta.NewDefaults | src/main/java/com/banjocreek/riverbed/builder/map/Defaults.java:29-31 | a single default fails exactly for a null key and otherwise holds just that pair |
| MapDelta.NewDefaultsFrom | src/main/java/com/banjocreek/riverbed/builder/map/Defaults.java:33-37 | a defaults map fails exactly when it has a null key; otherwise it copies all pairs |
| MapDelta.NewValues | src/main/java/com/banjocreek/riverbed/builder/map/AbstractMutableMapBuilder.java:146-150 | a single value fails exactly for a null key and otherwise holds just that pair |
| MapDelta.NewValuesFrom | src/main/java/com/banjocreek/riverbed/builder/map/AbstractMutableMapBuilder.java:160-163 | a values map fails exactly when it has a null key; otherwise it copies all pairs |
| MapDelta.NewRemoveChecksKey | src/main/java/com/banjocreek/riverbed/builder/map/Remove.java:32-34 | removal of one key fails exactly for null and otherwise names just that key |
| MapDelta.NewRemoveAllChecksKeys | src/main/java/com/banjocreek/riverbed/builder/map/Remove.java:28-30 | removal of a collection fails exactly when it is empty or holds null, with a null-key error for a non-empty one; otherwise it names each non-null member |
| MapDelta.NewResetChecksKey | src/main/java/com/banjocreek/riverbed/builder/map/Reset.java:36-38 | reset of one key fails exactly for null and otherwise names just that key |
| MapDelta.NewResetAllChecksKeys | src/main/java/com/banjocreek/riverbed/builder/map/Reset.java:30-34 | reset of a collection fails exactly when it holds null, and accepts an empty one |
| MapDelta.NewUpdate | src/main/java/com/banjocreek/riverbed/builder/map/Update.java:29-31 | a single update holds just the given key, null included, with its transform |
| MapDelta.NewUpdateFrom | src/main/java/com/banjocreek/riverbed/builder/map/Update.java:33-35 | an update map is copied as is, null keys included |
| MapDelta.Applicable | src/main/java/com/banjocreek/riverbed/builder/map/Update.java:37-42 | the transforms an update applies are exactly those for non-null keys present in the merge |
| MapDelta.ApplyTo | src/main/java/com/banjocreek/riverbed/builder/map/Defaults.java:39-44 | applying any delta keeps the kernel invariant, and Nop changes nothing |
| MapHelper.AdaptedConstructorUsesMerge | src/main/java/com/banjocreek/riverbed/builder/map/Helper.java:26-29 | an adapted constructor sees the kernel's merged map |
| MapHelper.Mutate | src/main/java/com/banjocreek/riverbed/builder/map/Helper.java:31-35 | the mutator applies the delta and keeps the kernel invariant |
| MapGenerators.DefaultsFrom | src/main/java/com/banjocreek/riverbed/builder/map/AbstractImmutableMapBuilder.java:66-70 | an empty map yields Nop; otherwise it fails exactly on a null key and carries every pair |
| MapGenerators.UpdatesFrom | src/main/java/com/banjocreek/riverbed/builder/map/AbstractImmutableMapBuilder.java:116-119 | an empty map yields Nop; otherwise an update of exactly the given transforms |
| MapGenerators.ValuesFrom | src/main/java/com/banjocreek/riverbed/builder/map/AbstractImmutableMapBuilder.java:146-149 | an empty map yields Nop; otherwise it fails exactly on a null key and carries every pair |
| MapGenerators.DefaultsFromActsLikeConstructed | src/main/java/com/banjocreek/riverbed/builder/map/AbstractImmutableMapBuilder.java:66-70 | the Nop shortcut has the same effect as the delta it stands for |
| MapGenerators.ValuesFromActsLikeConstructed | src/main/java/com/banjocreek/riverbed/builder/map/AbstractImmutableMapBuilder.java:146-149 | the Nop shortcut has the same effect as the delta it stands for |
| MapGenerators.RemoveFromRemovesListed | src/main/java/com/banjocreek/riverbed/builder/map/AbstractImmutableMapBuilder.java:80-82 | the removal generator fails exactly on a null member, yields Nop for an empty collection, and otherwise removes exactly the listed keys; without the shortcut an empty collection would be rejected |
| MapGenerators.UpdatesFromActsLikeConstructed | src/main/java/com/banjocreek/riverbed/builder/map/AbstractImmutableMapBuilder.java:116-119 | the Nop shortcut has the same effect as the update it stands for |
| MapSemantics.AbstractMerge | src/main/java/com/banjocreek/riverbed/builder/map/HashMapKernel.java:53-72 | a kernel in step with a history merges to the reference merge of that history |
| MapSemantics.StepAbstracts | src/main/java/com/banjocreek/riverbed/builder/map/Helper.java:31-35 | applying one more delta keeps the kernel in step with the extended history |
| MapSemantics.ReplayAbstracts | src/main/java/com/banjocreek/riverbed/builder/map/Helper.java:31-35 | replaying any history from a fresh kernel gives the kernel the reference describes |
| MapSemantics.ReplayMatchesReference | src/main/java/com/banjocreek/riverbed/builder/map/MapKernel.java:25-78 | for every history and key, the kernel's merge equals the key-by-key reference: latest explicit value or removal, else latest default since the last reset |
| MapSemantics.ReplayValid | src/main/java/com/banjocreek/riverbed/builder/map/HashMapKernel.java:39-44 | every replay keeps entered keys among the seen keys |
| MapSemantics.ReplayAppend | src/main/java/com/banjocreek/riverbed/builder/map/Helper.java:31-35 | replaying a concatenation replays the second part on the first part's result |
| MapSemantics.ReplayPair | src/main/java/com/banjocreek/riverbed/builder/map/Helper.java:31-35 | a two-delta history applies the deltas in posting order |
| MapSemantics.SwapAdjacent | src/main/java/com/banjocreek/riverbed/builder/map/MapKernel.java:31-32 | two adjacent deltas that commute where they occur can be swapped anywhere in a history |
| MapSemantics.DefaultsCommuteInSequence | src/main/java/com/banjocreek/riverbed/builder/map/MapKernel.java:31-32 | defaults may move across a values, remove or reset delta anywhere in a history without changing the result |
| MapSemantics.LaterDefaultsWinInSequence | src/main/java/com/banjocreek/riverbed/builder/map/MapKernel.java:33-35 | two adjacent defaults deltas equal one with the later overlaid, anywhere in a history |
| MapSemantics.NopIsInert | src/main/java/com/banjocreek/riverbed/builder/map/Nop.java:29-31 | inserting Nop anywhere in a history changes nothing |
| MapSemantics.ExplicitStable | src/main/java/com/banjocreek/riverbed/builder/map/MapKernel.java:44-61 | deltas that do not name a key leave its explicit status alone |
| MapSemantics.LastRemoveWins | src/main/java/com/banjocreek/riverbed/builder/map/MapKernel.java:44-61 | a removed key stays absent until a later delta names it, whatever defaults follow |
| MapSemantics.LastValueWins | src/main/java/com/banjocreek/riverbed/builder/map/MapKernel.java:63-78 | a set value stays until a later delta names its key, whatever defaults follow |
| MapSemantics.DefaultAfterExplicitIsInert | src/main/java/com/banjocreek/riverbed/builder/map/MapKernel.java:26-28 | a default posted for a key already set or removed has no effect until that key is reset |
| MapSemantics.ExplicitIgnoresDefault | src/main/java/com/banjocreek/riverbed/builder/map/MapKernel.java:26-28 | a default never changes a key's explicit status |
| MapSemantics.UpdatesCompose | src/main/java/com/banjocreek/riverbed/builder/map/AbstractMutableMapBuilder.java:119-122 | two updates of a present key compose in posting order |
| MapSemantics.UpdateOfPresentKey | src/main/java/com/banjocreek/riverbed/builder/map/Update.java:37-42 | an update of a key present in the reference merge makes that key merge to the transform of its previous value |
| MapSemantics.DefaultsAndValuesUnite | src/test/java/pgmr/com/banjocreek/riverbed/builder/map/MutableMapBuilderTest.java:266-287 | from a fresh builder, defaults and values merge to their union with values winning, in either posting order |
| MapSemantics.FreshPairKernel | src/main/java/com/banjocreek/riverbed/builder/map/HashMapKernel.java:46-88 | on a fresh kernel, defaults then values and values then defaults reach the same kernel: those defaults, those entries, exactly the value keys seen |
| MapSemantics.UnionMerge | src/main/java/com/banjocreek/riverbed/builder/map/HashMapKernel.java:53-72 | a kernel whose seen keys are its entry keys merges to defaults overlaid with entries |
| MapSemantics.ClearAndResetAllAtEnd | src/test/java/pgmr/com/banjocreek/riverbed/builder/map/MutableMapBuilderTest.java:394-417 | a final clear leaves the empty map; a final resetAll leaves each key at its latest default |
| MutableMapBuilder.New | src/main/java/com/banjocreek/riverbed/builder/map/AbstractMutableMapBuilder.java:29-32 | a new builder is wired to the map mutator and merges to the empty map |
| MutableMapBuilder.MergeDeliversContents | src/main/java/com/banjocreek/riverbed/builder/map/Helper.java:26-29 | merge hands the constructor the kernel's merged map |
| MutableMapBuilder.Post | src/main/java/com/banjocreek/riverbed/builder/AbstractMutableBuilder.java:48-52 | a rejected delta leaves no builder; an accepted one is applied and keeps the wiring |
| MutableMapBuilder.DoClear | src/main/java/com/banjocreek/riverbed/builder/map/AbstractMutableMapBuilder.java:37-39 | after clear the builder merges to the empty map |
| MutableMapBuilder.DoDefaults | src/main/java/com/banjocreek/riverbed/builder/map/AbstractMutableMapBuilder.java:52-54 | fails exactly for a null key; the default shows unless the key was overridden, and no other key changes |
| MutableMapBuilder.DoDefaultsMap | src/main/java/com/banjocreek/riverbed/builder/map/AbstractMutableMapBuilder.java:64-68 | an empty map changes nothing; otherwise fails exactly on a null key and shows each default at keys not overridden |
| MutableMapBuilder.DoRemove | src/main/java/com/banjocreek/riverbed/builder/map/AbstractMutableMapBuilder.java:90-93 | fails exactly for null; the key is absent and no other key changes |
| MutableMapBuilder.DoRemoveAll | src/main/java/com/banjocreek/riverbed/builder/map/AbstractMutableMapBuilder.java:78-80 | an empty collection changes nothing; otherwise fails exactly on null and removes exactly the listed keys |
| MutableMapBuilder.DoReset | src/main/java/com/banjocreek/riverbed/builder/map/AbstractMutableMapBuilder.java:98-100 | after reset the builder merges to exactly its defaults |
| MutableMapBuilder.DoResetKeys | src/main/java/com/banjocreek/riverbed/builder/map/AbstractMutableMapBuilder.java:102-104 | fails exactly on null; listed keys return to their default or absence, and other keys keep theirs |
| MutableMapBuilder.DoResetKey | src/main/java/com/banjocreek/riverbed/builder/map/AbstractMutableMapBuilder.java:106-108 | fails exactly for null; the key returns to its default or absence, and no other key changes |
| MutableMapBuilder.DoUpdate | src/main/java/com/banjocreek/riverbed/builder/map/AbstractMutableMapBuilder.java:119-122 | never fails; a present key takes the transform of its value, and an absent or null key changes nothing |
| MutableMapBuilder.DoUpdates | src/main/java/com/banjocreek/riverbed/builder/map/AbstractMutableMapBuilder.java:130-133 | never fails; each present key takes its transform of its value, and all other keys keep theirs |
| MutableMapBuilder.DoValues | src/main/java/com/banjocreek/riverbed/builder/map/AbstractMutableMapBuilder.java:146-150 | fails exactly for a null key; the key merges to the value, and no other key changes |
| MutableMapBuilder.DoValuesMap | src/main/java/com/banjocreek/riverbed/builder/map/AbstractMutableMapBuilder.java:160-163 | an empty map changes nothing; otherwise fails exactly on a null key and sets every pair, other keys unchanged |
| MutableMapBuilder.PostingFollowsReference | src/main/java/com/banjocreek/riverbed/builder/map/AbstractMutableMapBuilder.java:29-32 | after any accepted postings the builder merges to the reference merge of the posted deltas |
| MutableMapBuilder.ResetExampleSetup | src/test/java/pgmr/com/banjocreek/riverbed/builder/map/MutableMapBuilderTest.java:427-428 | the builder after defaults A, B, values B, C and removal of A has default "DA" for A, none for C, and value "VB" for B |
| MutableMapBuilder.ResetKeysExample | src/test/java/pgmr/com/banjocreek/riverbed/builder/map/MutableMapBuilderTest.java:419-443 | resetting A and C on that builder merges to {A: "DA", B: "VB"} |
| MutableMapBuilder.ResetKeysFromSetup | src/test/java/pgmr/com/banjocreek/riverbed/builder/map/MutableMapBuilderTest.java:419-443 | any wired builder with default "DA" at A, no default at C and value "VB" at B merges to {A: "DA", B: "VB"} after resetting A and C |
| ImmutableMapBuilder.NewRoot | src/main/java/com/banjocreek/riverbed/builder/map/AbstractImmutableMapBuilder.java:35-41 | corrected: a root builds the root constructor and finishes with the parent constructor, both of the empty map |
| ImmutableMapBuilder.NewRootAsWritten | src/main/java/com/banjocreek/riverbed/builder/map/AbstractImmutableMapBuilder.java:35-41 | as written: build goes through the parent constructor and done through the root one |
| ImmutableMapBuilder.ResultsFollowReference | src/main/java/com/banjocreek/riverbed/builder/map/AbstractImmutableMapBuilder.java:29-33 | after any chain of deltas, build and done receive the reference merge of that chain |
| ImmutableMapBuilder.AsWrittenBuildUsesParent | src/main/java/com/banjocreek/riverbed/builder/map/AbstractImmutableMapBuilder.java:38-40 | as written, after any chain build yields the parent constructor's result and done the root's |
| ImmutableMapBuilder.AsWrittenBuildDiffers | src/test/java/pgmr/com/banjocreek/riverbed/builder/map/ImmutableMapBuilderTest.java:87-109 | with R and P taken as one type, a concrete chain where the swapped order and the intended order build differently (0 against 1) |
| ImmutableMapBuilder.OneValueMerge | src/test/java/pgmr/com/banjocreek/riverbed/builder/map/ImmutableMapBuilderTest.java:87-109 | a history of one value posting merges to exactly that one pair |
| ImmutableMapBuilder.ExtendingKeepsResults | src/main/java/com/banjocreek/riverbed/builder/ImmutableBuilder.java:20-24 | extending a map builder never changes its own build or done |
| EnumMapKernel.Defaults | src/main/java/com/banjocreek/riverbed/builder/enummap/EnumMapKernel.java:67-71 | defaults overlay earlier defaults and touch nothing else |
| EnumMapKernel.Entries | src/main/java/com/banjocreek/riverbed/builder/enummap/EnumMapKernel.java:73-78 | entries overlay the entries and mark their keys seen |
| EnumMapKernel.Merge | src/main/java/com/banjocreek/riverbed/builder/enummap/EnumMapKernel.java:80-98 | the merge has the unseen defaults' keys and the entry keys |
| EnumMapKernel.Remove | src/main/java/com/banjocreek/riverbed/builder/enummap/EnumMapKernel.java:106-111 | removed keys leave the entries and are marked seen |
| EnumMapKernel.NewIsFresh | src/main/java/com/banjocreek/riverbed/builder/enummap/EnumMapKernel.java:46-50 | a new enum kernel has empty defaults, entries and overridden set, and is the fresh hash kernel |
| EnumMapKernel.PreservesValid | src/main/java/com/banjocreek/riverbed/builder/enummap/EnumMapKernel.java:39-44 | every enum-kernel operation keeps entered keys among the seen keys |
| EnumDelta.NewDefaults | src/main/java/com/banjocreek/riverbed/builder/enummap/Defaults.java:28-30 | a single enum default fails exactly for a null key and otherwise holds just that pair |
| EnumDelta.NewDefaultsFrom | src/main/java/com/banjocreek/riverbed/builder/enummap/Defaults.java:32-34 | an enum defaults copy fails exactly for an empty map or a null key; otherwise it copies all pairs |
| EnumDelta.NewEntries | src/main/java/com/banjocreek/riverbed/builder/map/Entries.java:11-13 | a single enum entry fails exactly for a null key and otherwise holds just that pair |
| EnumDelta.NewEntriesFrom | src/main/java/com/banjocreek/riverbed/builder/map/Entries.java:15-17 | an enum entries copy fails exactly for an empty map or a null key; otherwise it copies all pairs |
| EnumDelta.NewRemoveChecksKey | src/main/java/com/banjocreek/riverbed/builder/map/Remove.java:32-34 | an enum removal of one key fails exactly for null |
| EnumDelta.NewRemoveAllChecksKeys | src/main/java/com/banjocreek/riverbed/builder/map/Remove.java:28-30 | an enum removal of a collection fails exactly for an empty or null-holding collection |
| EnumDelta.ApplyTo | src/main/java/com/banjocreek/riverbed/builder/enummap/Defaults.java:36-41 | applying an enum delta keeps the kernel invariant, and Nop changes nothing |
| EnumDelta.ActsLikeMapDelta | src/main/java/com/banjocreek/riverbed/builder/map/Entries.java:19-24 | each enum delta acts on a kernel exactly as the map delta it corresponds to |
| EnumHelper.InitializerIsEmpty | src/main/java/com/banjocreek/riverbed/builder/enummap/Helper.java:33-36 | the initializer gives a valid kernel that merges to the empty map |
| EnumHelper.AdaptedConstructorUsesMerge | src/main/java/com/banjocreek/riverbed/builder/enummap/Helper.java:26-31 | an adapted constructor sees the kernel's merged map |
| EnumHelper.Mutate | src/main/java/com/banjocreek/riverbed/builder/enummap/Helper.java:38-42 | the mutator applies the enum delta and keeps the kernel invariant |
| MutableEnumMapBuilder.New | src/main/java/com/banjocreek/riverbed/builder/enummap/AbstractMutableEnumMapBuilder.java:30-34 | a new builder is wired and merges to the empty map |
| MutableEnumMapBuilder.Post | src/main/java/com/banjocreek/riverbed/builder/AbstractMutableBuilder.java:48-52 | a rejected delta leaves no builder; an accepted one is applied |
| MutableEnumMapBuilder.Defaults | src/main/java/com/banjocreek/riverbed/builder/enummap/AbstractMutableEnumMapBuilder.java:47-49 | fails exactly for a null key; the default shows unless overridden, and no other key changes |
| MutableEnumMapBuilder.DefaultsMap | src/main/java/com/banjocreek/riverbed/builder/enummap/AbstractMutableEnumMapBuilder.java:59-63 | an empty map changes nothing; otherwise fails exactly on a null key and shows each default at keys not overridden |
| MutableEnumMapBuilder.Entries | src/main/java/com/banjocreek/riverbed/builder/enummap/AbstractMutableEnumMapBuilder.java:76-80 | fails exactly for a null key; the key merges to the value, and no other key changes |
| MutableEnumMapBuilder.EntriesMap | src/main/java/com/banjocreek/riverbed/builder/enummap/AbstractMutableEnumMapBuilder.java:90-93 | an empty map changes nothing; otherwise fails exactly on a null key and sets every pair |
| MutableEnumMapBuilder.Remove | src/main/java/com/banjocreek/riverbed/builder/enummap/AbstractMutableEnumMapBuilder.java:115-118 | fails exactly for null; the key is absent and no other key changes |
| MutableEnumMapBuilder.RemoveAll | src/main/java/com/banjocreek/riverbed/builder/enummap/AbstractMutableEnumMapBuilder.java:103-105 | an empty collection changes nothing; otherwise fails exactly on null and removes exactly the listed keys |
| MutableEnumMapBuilder.Translate | src/main/java/com/banjocreek/riverbed/builder/map/Entries.java:19-24 | each enum delta is paired, position by position, with its map delta |
| MutableEnumMapBuilder.ReplayTranslates | src/main/java/com/banjocreek/riverbed/builder/enummap/Helper.java:38-42 | replaying enum deltas equals replaying their map deltas |
| MutableEnumMapBuilder.PostingFollowsReference | src/main/java/com/banjocreek/riverbed/builder/enummap/AbstractMutableEnumMapBuilder.java:30-34 | after any postings the enum builder merges to the reference merge of the translated history |
| MutableEnumMapBuilder.TranslateAppend | src/main/java/com/banjocreek/riverbed/builder/map/Entries.java:19-24 | translation distributes over concatenation |
| MutableEnumMapBuilder.DefaultAfterRemoveStaysAbsent | src/test/java/pgmr/com/banjocreek/riverbed/builder/enummap/MutableMapBuilderTest.java:67-88 | a removed key stays absent whatever defaults are posted afterwards |
| MutableEnumMapBuilder.TranslateSplice | src/main/java/com/banjocreek/riverbed/builder/enummap/Helper.java:38-42 | translating a history to map deltas distributes over a splice around one delta |
| MutableEnumMapBuilder.TranslatedDefaultsTouchNothing | src/main/java/com/banjocreek/riverbed/builder/enummap/Defaults.java:36-41 | translated enum defaults never set, remove or reset any key explicitly |
| MutableEnumMapBuilder.RemovedStaysAbsentInReference | src/test/java/pgmr/com/banjocreek/riverbed/builder/enummap/MutableMapBuilderTest.java:67-88 | in the reference merge, a key removed and followed only by defaults is absent |
| MutableEnumMapBuilder.AbsentFollowsReference | src/main/java/com/banjocreek/riverbed/builder/enummap/AbstractMutableEnumMapBuilder.java:30-34 | a key absent from the reference merge of the translated history is absent from the builder's merge |
| ListOp.Add | src/main/java/com/banjocreek/riverbed/builder/list/Op.java:26-31 | add appends exactly the element to any list |
| ListOp.AddAll | src/main/java/com/banjocreek/riverbed/builder/list/Op.java:33-38 | addAll appends exactly the elements, in order, to any list |
| ListOp.ClearEmpties | src/main/java/com/banjocreek/riverbed/builder/list/Op.java:40-45 | clear yields the empty list from any list |
| ListOp.Adds | src/main/java/com/banjocreek/riverbed/builder/list/Op.java:26-31 | one add operation per element, in order |
| ListOp.AddsAppendInOrder | src/main/java/com/banjocreek/riverbed/builder/list/Op.java:26-38 | adding elements one at a time equals one addAll of them, and appends them in order |
| ListOp.ClearDiscardsEarlier | src/main/java/com/banjocreek/riverbed/builder/list/Op.java:40-45 | operations before a clear have no effect on the result |
| MutableListBuilder.New | src/main/java/com/banjocreek/riverbed/builder/list/AbstractMutableListBuilder.java:31-33 | a new list builder holds the empty list |
| MutableListBuilder.DoAdd | src/main/java/com/banjocreek/riverbed/builder/list/AbstractMutableListBuilder.java:35-37 | the list grows by one, keeps its prefix and ends with the element |
| MutableListBuilder.DoAddAll | src/main/java/com/banjocreek/riverbed/builder/list/AbstractMutableListBuilder.java:39-41 | the list keeps its prefix and ends with exactly the added elements |
| MutableListBuilder.DoClear | src/main/java/com/banjocreek/riverbed/builder/list/AbstractMutableListBuilder.java:43-45 | the list becomes empty |
| MutableListBuilder.AddEach | src/main/java/com/banjocreek/riverbed/builder/list/AbstractMutableListBuilder.java:35-37 | repeated adds append the elements in order |
| MutableListBuilder.AddEachIsAddAll | src/main/java/com/banjocreek/riverbed/builder/list/AbstractMutableListBuilder.java:35-41 | repeated adds and one addAll leave the same list |
| MutableListBuilder.AddAllAfterAdds | src/test/java/pgmr/com/banjocreek/riverbed/builder/list/MutableListBuilderTest.java:65-87 | after adds of "one" and "two", an addAll of "v1", "v2" merges to all four elements in posting order |
| MutableListBuilder.AddMoreInOrder | src/test/java/pgmr/com/banjocreek/riverbed/builder/list/MutableListBuilderTest.java:89-111 | a third add after "one" and "two" lands last: the merge is "one", "two", "Value" |
| ImmutableListBuilder.NewRoot | src/main/java/com/banjocreek/riverbed/builder/list/AbstractImmutableListBuilder.java:37-42 | corrected: a root builds the root constructor and finishes with the parent constructor, both of the empty list |
| ImmutableListBuilder.NewRootAsWritten | src/main/java/com/banjocreek/riverbed/builder/list/AbstractImmutableListBuilder.java:37-42 | as written: build goes through the parent constructor and done through the root one |
| ImmutableListBuilder.AddsInPostingOrder | src/test/java/pgmr/com/banjocreek/riverbed/builder/list/ImmutableListBuilderTest.java:43-64 | any chain of adds builds, and finishes with, the elements in posting order |
| ImmutableListBuilder.ClearInChain | src/test/java/pgmr/com/banjocreek/riverbed/builder/list/ImmutableListBuilderTest.java:114-132 | a clear in a chain discards everything posted before it |
| ImmutableListBuilder.AsWrittenBuildUsesParent | src/main/java/com/banjocreek/riverbed/builder/list/AbstractImmutableListBuilder.java:40-41 | as written, build after any chain of adds yields the parent constructor's result |
| ImmutableListBuilder.AsWrittenBuildDiffers | src/main/java/com/banjocreek/riverbed/builder/list/AbstractImmutableListBuilder.java:40-41 | with R and P taken as one type, a concrete chain where the swapped order and the intended order build differently (0 against 1) |

## Left out

- Thread safety: the `synchronized` blocks of the mutable builder are not
  modelled, and neither is concurrency. Only sequential behaviour is modelled.
- Aliasing: the Java kernel and list are mutated in place and returned. The
  model returns new values, so aliasing of live state by a caller is not
  represented.
- ListOp.AddAll: the Java delta keeps the caller's collection by reference
  (list/Op.java:33-38) and reads it again on every replay, so a persistent
  list builder made with `genAddAll(c)` builds a different list after the
  caller changes `c`. The model takes a snapshot of the elements when the
  delta is made, so it does not represent that loss of immutability. The
  map deltas copy their arguments and are not affected.
- Java generics bounds such as `K extends Enum<K>`, and the `Class<K>` key
  token of the enum builder, are not modelled. A key is any Dafny type.
- The internals of `HashMap`, `EnumMap` and `EnumSet` are modelled only by
  their map and set contents. Iteration order is not modelled.
- `Values`, `Clear` and `ResetAll` deltas are not among the modelled files.
  The kernel's `reset`, `resetAll`, `clear` and `updates` are called by the
  deltas (map/Update.java:40, map/Reset.java:42) but are declared neither in
  the kernel interface (map/MapKernel.java:23-80) nor in `HashMapKernel`.
  Their semantics here are the model's own choice, the simplest ones the
  builder tests fix:
  - reset drops the keys from the entries and from the overridden set;
  - resetAll empties both;
  - clear empties all three parts;
  - updates overwrite the entries of present keys.
  The `Values` constructors validate keys like `Defaults`.
- `MapKernel.Updates` requires its keys to be present in the merge. That an
  update for a null key, or for a key absent from the merge, changes
  nothing is the model's own choice, as no code in the source defines
  `updates`. That skipping is placed in `MapDelta.Applicable`.
- MapKernel.Updates: an update is applied eagerly, to the merged value at the
  time it is posted, which is also the model's own choice. A default posted
  after an update does not reach the updated key, so their order matters.
  The kernel's documented commutation of `defaults` with `remove` and
  `values` holds and is proved in `MapSemantics.DefaultsCommuteInSequence`.
- `genClear`, `genReset` and `genValues`, which the builder tests call, are
  not defined in the modelled files. Clear, reset-all and values deltas are
  posted directly instead.
- `Nop.instance()` returns one shared object. Object identity is not
  modelled: `Nop` is a single datatype value.
- The arguments of the enum copies are taken to be plain collections. An
  argument that already is an `EnumSet` or `EnumMap` would be copied even
  when empty; this is not modelled.
- MutableBuilder.Merge: it has no contract of its own. It is a function of
  the builder, so two merges with no apply in between are equal and it
  cannot change the state.
- The builder's one mutable field is modelled by returning a new builder
  value from each apply. Several callers sharing one builder object is not
  modelled.
- The proof-of-concept builders under the test tree are usage examples and
  not part of the core.

## Findings

| source | as written | input that shows it | evidently intended | confidence | as-written member | corrected member |
|---|---|---|---|---|---|---|
| src/main/java/com/banjocreek/riverbed/builder/map/AbstractImmutableMapBuilder.java:38-40 | the adapted root constructor is passed where the generic builder expects the parent constructor, and the parent one where it expects the root one, which is a compile-time type error in the generic class, where the root result type R and the parent result type P are distinct type variables; with a single result type the same order would make `build` apply the parent constructor and `done` the root one | root constructor counting keys, parent constructor always 0, one value posted: `build` yields 0 instead of 1 | `build` applies the root constructor and `done` the parent constructor | not executed | ImmutableMapBuilder.AsWrittenBuildDiffers | ImmutableMapBuilder.NewRoot |
| src/main/java/com/banjocreek/riverbed/builder/list/AbstractImmutableListBuilder.java:40-41 | the same swap: `rootConstructor` fills the parent slot and `parentConstructor` the root slot of the generic builder; with distinct R and P this does not compile, and with a single result type `build` would apply the parent constructor | root constructor giving the length, parent constructor always 0, one element added: `build` yields 0 instead of 1 | `build` applies the root constructor and `done` the parent constructor | not executed | ImmutableListBuilder.AsWrittenBuildDiffers | ImmutableListBuilder.NewRoot |

In both classes R and P are distinct type variables, and the generic
constructor (AbstractImmutableBuilder.java:45-48) takes a function to P in
its parent slot and a function to R in its root slot. The swapped order is
therefore a compile-time type error, and the wrong results cannot be
observed from these classes as written. `NewRootAsWritten` and
`AsWrittenBuildDiffers` show what that argument order would do if R and P
were one type `X`. The counterexamples use integer results, so the two
constructors can differ while sharing that type.
