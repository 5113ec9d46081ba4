# Verified models of an XDP flow classifier and of the libbpf code it ships with

The repository detects anomalous flows in an XDP program and vendors libbpf to load it. This project
models the parts of both with the most state, recursion and arithmetic, in Dafny, and proves what their
documentation and comments promise. Where a promise does not hold, it proves exactly when it does.

| area | modules | main result |
|---|---|---|
| BTF deduplication | `Btf`, `Meaning`, `Equiv`, `Links`, `Names`, `Stages`, `RefStages`, `Renumber`, `Dedup` | all passes together keep the meaning of every type, leave no duplicates and no declaration that could be resolved |
| BTF bytes | `TypeSections`, `Compaction` | records tile their section and are told apart by their types; swapped data is restored if and only if it is packed; compaction in place |
| BTF dump order | `Order` | definitions embedded by value come first, nothing is defined twice, nothing is queued that is not met |
| hash map, string set | `HashMaps`, `HashMapRuns`, `StrSets` | a map or multimap across growth; when a lookup finds the newest entry; stable offsets |
| loader programs | `Loader`, `LoaderTypes`, `LoaderRuns`, `GenLoader` | every run of every generated loader ends after exactly the requested calls with the answers in place, or in the error of the failed call with everything closed |
| classifier | `Classifier`, `Flows`, `Frames` | when the kernel's answer is the trained tree's answer; statistics and accounting that tell the run exactly; frames parse back to their flows |
| packet and message bytes | `Vlan`, `Netlink`, `Bytes` | pushes and pops are inverse; attribute trees parse back |

`Numbers` holds constants. Code that changes things in place is a class or works on arrays
(`DedupState`, `HashMap`, `StrSet`, `BtfFile`, `CompactRecords`, `Dump`, `Gen`, `Detector`, `XdpBuffer`,
`Request`); each of its methods is proved against a specification, and the theorems are about that.

How the central notions are modelled:

- The meaning of a BTF type is the family of its n-step unfoldings, for all n (`Meaning.Unfold`), so cyclic
  graphs have meanings too. A tag that is also declared forward somewhere is seen as a leaf, because the
  code may replace the declaration by the definition and back.
- A loader program is a list of instructions for a small machine (`Loader.Step`) whose environment answers
  every call arbitrarily. The generator keeps, as ghost state, a note before every instruction; the notes
  say what has been asked, where the answers and open descriptors are stored, and whether a failed call has
  been noticed.
- Allocation may fail at any point where the methods say so. Numbers are unbounded; where the code's width matters it is written out
  (`% TWO32`, `Signed16`, `Wrap64`).

## Model

| member | source | states |
|---|---|---|
| `Dedup.DedupState.Dedup` | lib/libbpf/src/btf.c:3039-3102 | If all passes succeed, every old id has a new id and every new id comes from an old one; every type and its new id have the same unfoldings at every depth, and base types keep their ids and meanings; no two equal primitive or reference records remain, unless both are in the base or the earlier one is there and they are forward declarations; no declaration outside the base remains whose definition is the only composite of its name, and old references to either have one new id, unless the base has an equal declaration; no forward-declared enum outside the base remains beside another enum of its name, declarations of the base aside; if the base has no forward declarations, no remaining composite is the image of an earlier one under a graph morphism. On graphs whose reference chains end and whose composites refer to regular kinds, only lack of memory makes it fail. |
| `Dedup.DedupState.IsEquiv` | lib/libbpf/src/btf.c:4018-4176 | A positive answer leaves a hypothetical map that relates the two types and in which every new entry is justified by its own record and the entries for its references; a negative answer rules out every morphism that agrees with the assumptions made before, where a declaration may go to a definition of its tag and back as a leaf, and declarations already resolved stand for their definitions; the flag about the base is set exactly when a composite was met where the base only declares it; it terminates because every descent maps an unmapped canonical id; it returns an error only when an irregular kind is involved or memory runs out. |
| `Dedup.DedupState.HypotMapAdd` | lib/libbpf/src/btf.c:3156-3171 | The entry is added and listed for clearing and the rest of the map stays, or memory runs out and nothing changes. |
| `Dedup.DedupState.ClearHypotMap` | lib/libbpf/src/btf.c:3173-3181 | Clearing only the listed entries clears the whole map. |
| `Dedup.DedupState.Candidates` | lib/libbpf/src/btf.c:3148-3149 | The ids visited for a hash are exactly those filed under it. |
| `Dedup.DedupState.ResolveFwd` | lib/libbpf/src/btf.c:3863-3877 | Returns what the declaration stands for under the links: the definition at the end of the chain, or the declaration itself; it means the same as far as declarations tell. Every other kind stays where it is. |
| `Dedup.DedupState.Prep` | lib/libbpf/src/btf.c:3676-3734 | Afterwards every base type represents itself and is a candidate. |
| `Dedup.DedupState.FindPrim` | lib/libbpf/src/btf.c:3742-3825 | The target found is an earlier type that the record may be linked to; if none is found, no candidate that still represents itself is an equal record or an enum of the same name that is only declared or that this record only declares; of the links only forward declarations of enumerations are redirected. |
| `Dedup.DedupState.TryPrim` | lib/libbpf/src/btf.c:3781-3801 | A candidate is hit if and only if it is an equal record or an enum of the name that the record declares; otherwise a declaration of the record's enum is redirected to the record, and nothing else changes. |
| `Dedup.DedupState.DedupPrimTypes` | lib/libbpf/src/btf.c:3827-3837 | Afterwards every primitive type is linked to a representative that means the same, equal representatives are one, and no enum is both declared and defined by representatives, the base aside. |
| `Dedup.DedupState.MergeHypotMap` | lib/libbpf/src/btf.c:4204-4265 | Merging a bisimulation keeps the links sound and acyclic; only forward declarations and composites not yet linked get a link, and a composite that represents itself is never redirected; afterwards the declaration in every pair with a composite resolves to a definition (on the candidate's side unless the base would have to change), and nothing resolved before is undone. |
| `Dedup.DedupState.MergePair` | lib/libbpf/src/btf.c:4214-4263 | For one pair: the chains of the two are joined if one ends at a declaration and the other at a definition, or at an unmapped composite and a mapped type, as far as the base allows; otherwise no link changes. |
| `Dedup.DedupState.TryComposite` | lib/libbpf/src/btf.c:4322-4340 | 1 means that the two mean the same, that all declarations met by definitions are resolved and that no declaration of the base was among them; 0 means that one was, or that no link has changed and no morphism relates the two. |
| `Dedup.DedupState.FindComposite` | lib/libbpf/src/btf.c:4289-4345 | The composite found represents itself and means the same; if none is found and the base has no forward declarations, no earlier representative is related by a morphism under the resolutions so far. |
| `Dedup.DedupState.DedupStructTypes` | lib/libbpf/src/btf.c:4347-4357 | The invariant of the composite pass holds for all ids afterwards. |
| `Dedup.DedupState.FillUniqueNames` | lib/libbpf/src/btf.c:4529-4561 | The name table maps each name to its only representative composite, or to 0 if there are several. |
| `Dedup.DedupState.ResolveFwds` | lib/libbpf/src/btf.c:4628-4650 | A forward declaration is linked to the unique composite of its name and kind, and to nothing otherwise; no other link changes; afterwards nothing can be resolved that way. |
| `Dedup.DedupState.DedupRefType` | lib/libbpf/src/btf.c:4383-4507 | The result represents itself, has the same meaning and is what the id resolves to; composites are not touched; with reference chains that end it does not fail except for memory. |
| `Dedup.DedupState.DedupRefTypes` | lib/libbpf/src/btf.c:4509-4522 | Afterwards every id resolves to a type that represents itself; the links of other kinds have not changed. |
| `Dedup.DedupState.CompactTypes` | lib/libbpf/src/btf.c:4663-4709 | On records as values: the result is the base followed by the representatives in their order, with the map from old to new ids. |
| `Dedup.DedupState.RemapTypes` | lib/libbpf/src/btf.c:4717-4761 | Every reference is replaced by the new id of what it resolves to, and the error return is never taken. |
| `Btf.EqualByKindIsEquality` | lib/libbpf/src/btf.c:3391-3419 | For primitive and reference kinds the comparison chosen by kind holds exactly when the whole records are equal. |
| `Equiv.CompareRecordsExact` | lib/libbpf/src/btf.c:4063-4176 | For all well-formed records: the comparison accepts two records if and only if one declares what the other declares or defines, or their labels (all but the references) are equal; it decides without looking at references only for those and for records without any; the kinds it refuses as invalid are neither primitive nor composite. |
| `Equiv.DeclarationMeetsDefinition` | lib/libbpf/src/btf.c:4071-4099 | A forward declaration and a composite agree if and only if they carry the same tag; a forward-declared enum and an enum if and only if the tags are equal and both have the same width. |
| `Equiv.PositiveIsBisim` | lib/libbpf/src/btf.c:4018-4176 | From a cleared map, a positive answer means that the types, and all pairs met on the way, have the same unfoldings. |
| `Equiv.NegativeIsNoMorphism` | lib/libbpf/src/btf.c:4018-4176 | From a cleared map, a negative answer means that no graph morphism takes one type to the other, declarations taken as leaves. |
| `Stages.NoPlainMorphism` | lib/libbpf/src/btf.c:4018-4176 | In a graph without forward declarations these morphisms include every map that keeps labels and references. |
| `Equiv.IdenticalStructsUnfold` | lib/libbpf/src/btf.c:3886-3923 | Composites accepted as identical without consulting the map have the same unfoldings. |
| `Equiv.IdenticalBisim` | lib/libbpf/src/btf.c:4034-4058 | The exception for identical arrays and structs made for imperfect compilers relates types of equal meaning only. |
| `Meaning.JustifiedIsBisim` | lib/libbpf/src/btf.c:3925-4017 | A hypothetical map whose entries are all justified is a bisimulation: the coinductive argument behind the comparison. |
| `Meaning.SameDeclarationBisim` | lib/libbpf/src/btf.c:4071-4089 | A forward declaration and what it may stand for are seen alike. |
| `Meaning.RewriteKeepsMeaning` | lib/libbpf/src/btf.c:4383-4507 | Replacing references by references to types of equal meaning changes no meaning. |
| `Meaning.RenumberKeepsMeaning` | lib/libbpf/src/btf.c:4717-4761 | Moving every type to the place of its representative changes no meaning. |
| `Links.Resolve` | lib/libbpf/src/btf.c:3852-3857 | The loop along the links ends and returns the root. |
| `Links.SetLink` | lib/libbpf/src/btf.c:3742-3825 | A link from a non-reference type to one of smaller rank keeps the links acyclic and of matching kinds. |
| `Links.SetRefLink` | lib/libbpf/src/btf.c:4383-4507 | So does a link from an unmapped reference type to a representative of its kind. |
| `Links.RootSound` | lib/libbpf/src/btf.c:3852-3857 | What an id resolves to means the same as the id. |
| `Links.RootAfterLink` | lib/libbpf/src/btf.c:4204-4265 | Linking the end of one chain to the end of another joins the two chains and changes no other. |
| `Names.AddThenSet` | lib/libbpf/src/btf.c:4529-4561 | Adding a name and, if it was there, setting it to 0 keeps the table right at one more id, whether or not the table grows. |
| `Names.ResolvedLeavesNone` | lib/libbpf/src/btf.c:4628-4650 | Resolving by name leaves no declaration that could be resolved by name. |
| `RefStages.RootIsRepresentative` | lib/libbpf/src/btf.c:4509-4522 | During the reference pass every mapped id resolves to a type that represents itself. |
| `Renumber.PlacesIncrease` | lib/libbpf/src/btf.c:4663-4709 | The map from old to new ids is strictly increasing on what is kept. |
| `Renumber.PlacesOnto` | lib/libbpf/src/btf.c:4663-4709 | It reaches every new id, which holds the record it held before. |
| `Renumber.CompactMove` | lib/libbpf/src/btf.c:4681-4695 | Moving a record down overwrites none that is still to be read. |
| `Renumber.DedupKeepsMeaning` | lib/libbpf/src/btf.c:3039-3102 | Whatever the passes leave behind, every type and its new id have the same unfoldings. |
| `Renumber.MeaningPreservedInFull` | lib/libbpf/src/btf.c:3039-3102 | Without forward declarations every type and its new id have the same full unfoldings, with nothing seen as a leaf, at every depth. |
| `Renumber.FinishedHasNoDuplicates` | lib/libbpf/src/btf.c:3039-3102 | The output holds no two equal primitive or reference records, unless both are in the base or the earlier one is there and they are forward declarations. |
| `Renumber.FinishedResolves` | lib/libbpf/src/btf.c:4628-4650 | In the output no declaration outside the base has a definition that is the only composite of its name. |
| `Renumber.FinishedShares` | lib/libbpf/src/btf.c:4563-4650 | A declaration and a composite of the input whose tag has one definition in the output both get its id, unless an equal declaration of the base takes the declaration. |
| `Renumber.FinishedEnums` | lib/libbpf/src/btf.c:3781-3805 | In the output a forward-declared enum outside the base is the only enum of its name, declarations of the base aside. |
| `Renumber.FinishedIsRenumbered` | lib/libbpf/src/btf.c:4663-4729 | Old and new ids correspond in both directions. |
| `Compaction.CompactRecords` | lib/libbpf/src/btf.c:4663-4709 | On the byte buffer and the offset array: the records kept are those of representatives, byte for byte and in order; the new offsets are where they lie, without gaps; the id map is the one of the pass on values. |
| `Compaction.MoveRecord` | lib/libbpf/src/btf.c:4685-4694 | Writing position and offset index never pass the reading position, so no record or offset still to be read changes, although source and target may overlap. |
| `Compaction.MoveDown` | lib/libbpf/src/btf.c:4690-4690 | Copying to a lower place, overlapping or not, yields the bytes that were at the source. |
| `Compaction.Unread` | lib/libbpf/src/btf.c:4685-4690 | The record and the offset about to be read are still the original ones. |
| `Compaction.BytesToTypes` | lib/libbpf/src/btf.c:4663-4709 | Compaction of the bytes is compaction of the types they stand for. |
| `Compaction.LoadedTypes` | lib/libbpf/src/btf.c:288-327 | Every record of a section that was loaded stands for a well-formed type of a known kind and is exactly as long as the fields of that type: three words and one for every name, type id and other word of its tail. |
| `Compaction.RecordWords` | lib/libbpf/src/btf.c:288-327 | Every word of a whole record is found in the type it stands for, at its place for the kind. |
| `Compaction.TypeOfInjective` | lib/libbpf/src/btf.c:288-327 | Two whole records that stand for the same type are the same bytes. |
| `TypeSections.TailWordsAreFields` | lib/libbpf/src/btf.c:288-327 | For every kind the size counts exactly the names, words and type ids of the type. |
| `TypeSections.KindCodes` | lib/libbpf/src/btf.c:288-327 | Kinds and their codes correspond one to one; the codes from 1 to 19 are the known ones. |
| `TypeSections.BtfFile.ParseTypes` | lib/libbpf/src/btf.c:413-449 | Unless memory runs out, it succeeds if and only if the records, in native order, tile the section exactly; then the section is in native order and the offsets are those of the records. |
| `TypeSections.BtfFile.ParseRecord` | lib/libbpf/src/btf.c:419-442 | One record: it is accepted if and only if a whole record of known kind lies there; its size is read after its first words have been swapped. |
| `TypeSections.BtfFile.ParseHeader` | lib/libbpf/src/btf.c:220-267 | Accepts exactly readable headers: known magic in either order, sections inside the data and in order, types aligned, and the known length if swapped; leaves the header in native order. |
| `TypeSections.BtfFile.Parse` | lib/libbpf/src/btf.c:867-915 | Unless memory runs out, it succeeds if and only if the data can be loaded, and leaves the whole data in native order. |
| `TypeSections.SwapRest` | lib/libbpf/src/btf.c:336-411 | For every kind exactly the words behind the first three are reversed. |
| `TypeSections.SwapBase` | lib/libbpf/src/btf.c:329-334 | The first three words are reversed and nothing else. |
| `TypeSections.SwapHeader` | lib/libbpf/src/btf.c:210-218 | The magic and the five lengths and offsets are reversed, version and flags are not. |
| `TypeSections.BtfFile.SwapTypes` | lib/libbpf/src/btf.c:1279-1291 | Swapping the rest of each record before its first words reverses every word of the section once. |
| `TypeSections.BtfFile.RawData` | lib/libbpf/src/btf.c:1255-1303 | Returns the data itself, or header, types and strings one after the other in the other byte order. |
| `TypeSections.SwappedTwice` | lib/libbpf/src/btf.c:329-411 | Reversing the words of a range twice restores it. |
| `TypeSections.SwappedJoin` | lib/libbpf/src/btf.c:1283-1289 | The parts of a range may be swapped in either order. |
| `TypeSections.TileableStep` | lib/libbpf/src/btf.c:420-447 | A non-empty range can be tiled if and only if a whole record starts it and the rest can be tiled. |
| `TypeSections.RestoresPacked` | lib/libbpf/src/btf.c:1255-1303 | For swapped data that loads, writing restores the original bytes if and only if the data is as long as its header, types and strings together. |
| `TypeSections.Reserialise` | lib/libbpf/src/btf.c:867-915 | Loading and writing as one operation: native data always comes back as it was, swapped data if and only if it is packed. |
| `Order.Dump.OrderType` | lib/libbpf/src/btf_dump.c:469-614 | On success everything that has to be defined before a use of the type is in the queue, earlier entries stay, and everything new is a definition that a visit of the type meets without going past a composite that needs only a declaration; 1 is returned if the type leads to something that has to be defined first, and only if the type itself may be used by value; a loop is reported only on graphs that have no order. |
| `Order.Dump.DumpType` | lib/libbpf/src/btf_dump.c:277-297 | One call of the library: ids out of range are refused; on success the queue has what the type needs, keeps what it had, and got nothing but definitions that a visit of the type meets. |
| `Order.NeededIsVisited` | lib/libbpf/src/btf_dump.c:400-467 | Everything needed where a type is used is a definition that a visit of it meets. |
| `Order.VisitedIsNeeded` | lib/libbpf/src/btf_dump.c:400-467 | Every composite and declaration that a visit meets as a definition is needed, as long as function prototypes are met only through pointers. |
| `Order.Dump.AddEmitQueueId` | lib/libbpf/src/btf_dump.c:377-393 | Appends one id within the allocated room, which grows when it is used up, or runs out of memory and changes nothing. |
| `Order.EmbeddedIsEarlier` | lib/libbpf/src/btf_dump.c:395-468 | Every named struct or union embedded by value in a queued definition, through arrays, modifiers, typedefs and anonymous composites, was queued before it. |
| `Order.MarkReferenced` | lib/libbpf/src/btf_dump.c:311-375 | A type is marked exactly if some other type refers to it in a way that counts. |
| `HashMaps.HashMap.Insert` | lib/libbpf/src/hashmap.c:154-204 | For all four strategies and every answer of the allocator: the return code, the old entry, size and capacity, and the chain of every key afterwards; the chains of other keys are reversed if and only if the capacity changed. An insertion that runs out of memory has grown the table if and only if it needed to grow and the buckets could be allocated. |
| `HashMaps.HashMap.Grow` | lib/libbpf/src/hashmap.c:101-128 | Four buckets at first, twice as many later; every entry stays and is moved to its new chain; it fails exactly when there is no memory or the size does not fit, and then nothing changes. |
| `HashMaps.HashMap.Find` | lib/libbpf/src/hashmap.c:206-218 | Finds the first entry of the key's chain, if there is one. |
| `HashMaps.HashMap.Delete` | lib/libbpf/src/hashmap.c:220-240 | Removes the first entry of the key's chain and nothing else. |
| `HashMaps.HashMap.KeyEntries` | lib/libbpf/src/hashmap.h:202-208 | Iterating over a key visits exactly its chain. |
| `HashMaps.HashBitsBound` | lib/libbpf/src/hashmap.h:15-29 | The bucket number is in range. |
| `HashMaps.HashBitsSplit` | lib/libbpf/src/hashmap.h:15-29 | With one more bit a bucket number is halved to give the old one. |
| `HashMaps.GrowthReversesChains` | lib/libbpf/src/hashmap.c:116-119 | Growth keeps every key's entries and exactly reverses their order. |
| `HashMaps.GrowthSplitsBuckets` | lib/libbpf/src/hashmap.c:116-119 | Bucket b goes to the buckets 2b and 2b+1 only. |
| `HashMapRuns.InsertRefinesMap` | lib/libbpf/src/hashmap.c:154-204 | Without append, insertion is add, set or update on a finite map, across growth. |
| `HashMapRuns.DeleteRefinesMap` | lib/libbpf/src/hashmap.c:220-240 | Deletion removes one key from that map. |
| `HashMapRuns.GrowthsAreDoublings` | lib/libbpf/src/hashmap.c:95-128 | The number of growths while n entries are added only depends on the capacity before and the size after. |
| `HashMapRuns.NewestIsFound` | lib/libbpf/src/hashmap.h:110-116 | After an append and any number of further appends with other keys, a lookup returns the appended entry if and only if the capacity doubles an even number of times for the final size, or the entry is also the oldest of its key. |
| `HashMapRuns.NewestAfterAnything` | lib/libbpf/src/hashmap.h:110-116 | The same after any operations on other keys, successful or not, in terms of the capacities before and after: an even number of doublings, or the entry is also the oldest of its key. |
| `HashMapRuns.GrowthHidesNewest` | lib/libbpf/src/hashmap.h:110-116 | A concrete case on the class: 10 and 20 appended for one key and two other keys; the lookup returns 10. |
| `HashMapRuns.FailureHidesNewest` | lib/libbpf/src/hashmap.c:187-196 | The same with a fourth insertion that fails for lack of memory for its entry: the lookup returns the older value although nothing was inserted. |
| `StrSets.StrSet.AddStr` | lib/libbpf/src/strset.c:142-177 | Returns an offset that holds the string; a string that is there already keeps its offset and changes nothing; a new one gets the old length; all earlier bytes stay; on failure the set is unchanged. |
| `StrSets.StrSet.FindStr` | lib/libbpf/src/strset.c:116-134 | Returns the offset of the string, or that it is not in the set; neither the set nor the live bytes change although bytes behind them are written. |
| `StrSets.StrSet.IndexAll` | lib/libbpf/src/strset.c:39-82 | Every initial string is indexed and known by the offset where it occurs first. |
| `StrSets.StrSet.AddMem` | lib/libbpf/src/btf.c:141-173 | There is room afterwards, old bytes stay and new ones are zero; the size grows by a quarter and to at least 16, within the limit, or as much as is needed; nothing happens if there was room before. |
| `LoaderTypes.RunIsSafe` | lib/libbpf/src/gen_loader.c:113-154 | In a program whose notes fit, the note holds before every instruction of every run: what has been asked, where the answers are, what is open and what has been noticed. |
| `LoaderRuns.LoaderOutcome` | lib/libbpf/src/gen_loader.c:113-154 | Every run of a finished loader, for every pattern of answers: it ends; it leaves its stack if and only if more than 32 programs were announced and a call failed, or more than 32 were loaded; otherwise it returns the result of the failed call with nothing open but descriptor 0, and that if and only if some call opened it, or it returns 0 after exactly the requested calls, in order, none of which failed, with every open descriptor in the context (or an unused inner map). |
| `LoaderRuns.FailedCallIsReported` | lib/libbpf/src/gen_loader.c:282-295 | If a bpf() call, a lookup that is not optional, or a symbol lookup fails (other than with "no such symbol"), anywhere in a run, the loader returns exactly that result and has closed everything but a descriptor 0, for up to 32 programs. |
| `LoaderRuns.ZeroStaysOpen` | lib/libbpf/src/gen_loader.c:344-354 | For every finished loader that opens a descriptor and makes a later call whose failure counts, a run exists that returns an error and leaves exactly descriptor 0 open. |
| `LoaderRuns.ThirtyThreePrograms` | lib/libbpf/src/libbpf.c:7830-7831 | From 33 announced programs on, a run leaves the stack if and only if 33 were loaded or a call failed. |
| `LoaderRuns.RunEnds` | lib/libbpf/src/gen_loader.c:282-295 | Every run ends within twice the length of the program, although error checks jump back. |
| `LoaderRuns.JumpsLandOnInstructions` | lib/libbpf/src/gen_loader.c:664-733 | Every hand-counted jump of a finished loader lands inside the program and never between the halves of a 64-bit load. |
| `LoaderRuns.LoadsAreWhole` | lib/libbpf/src/gen_loader.c:104-108 | Every 64-bit load has both halves. |
| `GenLoader.SkipsExactly` | lib/libbpf/src/gen_loader.c:130-138 | The first jump lands behind the cleanup block if and only if the length of the block fits into a 16-bit offset. |
| `GenLoader.LongCleanupFaults` | lib/libbpf/src/gen_loader.c:130-138 | A length that wraps to a negative offset sends every run out of the program. |
| `GenLoader.SuccessHandsOver` | lib/libbpf/src/gen_loader.c:380-395 | When a finished loader returns 0, it has made exactly the requested calls in order; the context holds, in its own place, the descriptor that the call for each program and each map returned; nothing else is open but 0 and an unused inner map. |
| `GenLoader.Gen.Init` | lib/libbpf/src/gen_loader.c:113-154 | For any number of programs and maps: the start, the jump and a cleanup block of the announced length; the commands may follow. |
| `GenLoader.Gen.EmitCleanup` | lib/libbpf/src/gen_loader.c:142-153 | The block closes every stack word and map slot in turn and returns the error; what it covers is noted at its label; the first jump lands behind it. |
| `GenLoader.Gen.EmitCheckErr` | lib/libbpf/src/gen_loader.c:282-295 | Needs a result that has not been checked; jumps exactly to the cleanup label, or records an error if that is too far. |
| `GenLoader.Gen.EmitSysBpf` | lib/libbpf/src/gen_loader.c:266-275 | A bpf() call with the given command, which leaves its result in R7 and unchecked; the previous result has to be settled. |
| `GenLoader.Gen.EmitClose` | lib/libbpf/src/gen_loader.c:344-354 | Code that closes what R1 holds if it is positive, and so never descriptor 0; the place R1 was loaded from holds nothing live afterwards; its length is as announced, with and without logging. |
| `GenLoader.Gen.EmitCloseStack` | lib/libbpf/src/gen_loader.c:356-360 | The stack word holds nothing live afterwards. |
| `GenLoader.Gen.EmitCloseBlob` | lib/libbpf/src/gen_loader.c:362-368 | The slot holds nothing live afterwards; the length is the one the first jump counts with. |
| `GenLoader.Gen.DebugRegs` | lib/libbpf/src/gen_loader.c:298-342 | Printing changes only R0 to R5 and has a known length. |
| `GenLoader.Gen.AddData` | lib/libbpf/src/gen_loader.c:156-173 | Returns the old length and makes room for the size rounded up to eight bytes, within 31 bits, or records an error. |
| `GenLoader.Gen.AddMapFd` | lib/libbpf/src/gen_loader.c:178-186 | The next free slot below 64, or an error. |
| `GenLoader.Gen.AddKfuncBtfFd` | lib/libbpf/src/gen_loader.c:188-197 | A slot that is no map's, in the array while there is room and behind the data later. |
| `GenLoader.Gen.LoadBtf` | lib/libbpf/src/gen_loader.c:417-446 | Keeps the invariant between commands: nothing pending or unchecked, everything open in a place the cleanup block visits, the answers for programs and maps in their places. One more request: loading BTF data. |
| `GenLoader.Gen.EmitBtfLoad` | lib/libbpf/src/gen_loader.c:417-441 | The instructions copy the log settings of the context and store the address of the data in the attributes, and then issue the command on them. |
| `GenLoader.Gen.MapCreate` | lib/libbpf/src/gen_loader.c:448-524 | Keeps the invariant; one more request for a map, whose answer becomes that of the next map or of an inner map; an inner map is closed when the outer map has been created. |
| `GenLoader.Gen.EmitMapCreate` | lib/libbpf/src/gen_loader.c:477-503 | The instructions copy the BTF descriptor if there is a value type, the inner map's descriptor for a map of maps, and the number of entries given in the context unless it is zero into the attributes, and then issue the command on them. |
| `GenLoader.Gen.MapUpdateElem` | lib/libbpf/src/gen_loader.c:1034-1079 | Keeps the invariant; one more request for an update, whose attributes get the descriptor in the slot of the map and the address of the value. |
| `GenLoader.Gen.PopulateOuterMap` | lib/libbpf/src/gen_loader.c:1081-1106 | Keeps the invariant; one more request for an update, whose attributes get the descriptor in the slot of the outer map and the address of the slot of the inner one. |
| `GenLoader.Gen.MapFreeze` | lib/libbpf/src/gen_loader.c:1108-1123 | Keeps the invariant; one more request to freeze, whose attributes get the descriptor in the slot of the map. |
| `GenLoader.Gen.UpdateElem` | lib/libbpf/src/gen_loader.c:1065-1105 | The instructions copy the descriptor found at the given place and store the addresses of key and value in the attributes of an update, and then issue it on them. |
| `GenLoader.Gen.ProgLoad` | lib/libbpf/src/gen_loader.c:934-1032 | Keeps the invariant; the requests are the lookup of the attach target if there is one, one lookup for each symbol where it is first needed, and the load, whose answer becomes that of the next program. |
| `GenLoader.Gen.EmitProgAttr` | lib/libbpf/src/gen_loader.c:958-1001 | The instructions store the addresses of license, instructions, function and line information, relocations and descriptors, the log settings and the BTF descriptor in their fields of the attributes. |
| `GenLoader.Gen.RecordExtern` | lib/libbpf/src/gen_loader.c:562-581 | Appends one relocation or runs out of memory. |
| `GenLoader.Gen.RecordReloCore` | lib/libbpf/src/gen_loader.c:851-865 | Counts one more relocation or runs out of memory. |
| `GenLoader.Gen.RecordAttachTarget` | lib/libbpf/src/gen_loader.c:526-538 | Names the target or records that the name is too long. |
| `GenLoader.Gen.GetKsymDesc` | lib/libbpf/src/gen_loader.c:584-611 | One more use of the first symbol with the same name, kind and size, or a new symbol with one use if there is none; on lack of memory nothing changes. |
| `GenLoader.Gen.EmitLookup` | lib/libbpf/src/gen_loader.c:616-629 | One more request, optional exactly for weak symbols; the failure of any other is checked. |
| `GenLoader.Gen.EmitReloKfunc` | lib/libbpf/src/gen_loader.c:664-733 | Keeps what holds during relocation; a lookup is requested if and only if the function is not known yet; entries of the fd array in use are those of known functions. |
| `GenLoader.Gen.EmitReloTypeless` | lib/libbpf/src/gen_loader.c:754-785 | The same for symbols without type; that a symbol does not exist is the one failure that is not reported. |
| `GenLoader.Gen.EmitUnlessMissing` | lib/libbpf/src/gen_loader.c:775-776 | After the two tests the result has been checked on every path. |
| `GenLoader.Gen.EmitReloKsymBtf` | lib/libbpf/src/gen_loader.c:801-849 | The same for typed symbols; the paths that skip clearing the source register meet again. |
| `GenLoader.Gen.CleanupRelos` | lib/libbpf/src/gen_loader.c:902-932 | For every function and every symbol not marked typeless there is code that closes the descriptor at its place if it is positive; every entry of the fd array is freed, symbols and relocations are forgotten, and the pending result is left alone. |
| `GenLoader.Gen.Finish` | lib/libbpf/src/gen_loader.c:370-406 | Refuses other numbers than were generated; otherwise, if the caller announced as many maps and no fewer programs at the start, the first jump fits and no descriptor place was used twice, the program is finished in the sense of the theorems, for exactly the requests made, and hands over every descriptor. |
| `Classifier.ComparisonExact` | xdp_prog/common_kern_user.h:88-91 | The fixed-point comparison agrees with the real one if and only if the value does not lie in the half step above the threshold (or is 0 with a negative threshold). |
| `Classifier.KernelComparison` | xdp_prog/read_model_to_map.py:36-43 | What the fixed-point comparison means on real numbers. |
| `Classifier.NearMissFlips` | xdp_prog/read_model_to_map.py:36-43 | A threshold for which the comparison flips. |
| `Classifier.LargeValuesWrap` | xdp_prog/common_kern_user.h:88-91 | Values from 2^48 on are reduced modulo 2^48. |
| `Classifier.ConvertTree` | xdp_prog/read_model_to_map.py:61-105 | Refuses exactly trees with too many nodes; every node becomes the entry it stands for, the rest is unused. |
| `Classifier.ArgMax` | xdp_prog/read_model_to_map.py:85-87 | The first of the largest weights. |
| `Classifier.PredictDt` | xdp_prog/xdp_prog_kern.c:108-150 | The loop computes the walk: label 0 for anything out of range or too deep. |
| `Classifier.WalkFollowsTree` | xdp_prog/xdp_prog_kern.c:108-150 | On converted nodes the walk follows the tree as far as its budget goes. |
| `Classifier.PredictionExact` | xdp_prog/xdp_prog_kern.c:108-150 | For all inputs: the label of the leaf that fixed-point comparisons reach if it is at most 99 splits deep, else 0. |
| `Classifier.PredictionIsRight` | xdp_prog/xdp_prog_kern.c:108-150 | The answer is that of the trained tree on real numbers if no comparison on the path flips and the leaf is at most 99 splits deep. |
| `Classifier.SameLeaf` | xdp_prog/xdp_prog_kern.c:127-145 | For values and thresholds in range, fixed-point comparisons take the same path as real ones if and only if no comparison on the path flips. |
| `Classifier.FlipChangesAnswer` | xdp_prog/xdp_prog_kern.c:135-145 | For a tree of one comparison the answer is right if and only if the comparison does not flip. |
| `Classifier.DeepLeafMissed` | xdp_prog/train_model.py:156-156 | A leaf 100 splits deep, which training allows, is never reached: label 0 instead of 1. |
| `Classifier.DeepLeaf` | xdp_prog/train_model.py:156-156 | Such a tree from its arrays through conversion to the answer: 0, where the model says 1. |
| `Classifier.CountOutside` | xdp_prog/common_kern_user.h:68-73 | The number of nodes, as the kernel's layout places it, lies inside what the model loader provides if and only if the kernel's limit is at most three larger; with 600 and 5000 it does not. |
| `Classifier.AnswerNeedsCount` | xdp_prog/xdp_prog_kern.c:114-150 | The answer with any number in place of the number of nodes: the leaf's label if and only if all nodes on the path have smaller indices and the leaf is not too deep, else 0. |
| `Flows.FirstDescribes` | xdp_prog/xdp_prog_kern.c:162-189 | A new entry describes a run of one packet. |
| `Flows.NextDescribes` | xdp_prog/xdp_prog_kern.c:191-206 | After any further packet the entry holds count and bytes modulo 2^32, the exact largest and least length and the least positive gap. |
| `Flows.GapsFitDuration` | xdp_prog/xdp_prog_kern.c:192-197 | The number of positive gaps times the least of them is at most the duration. |
| `Flows.Detector.GapsFitEntry` | xdp_prog/xdp_prog_kern.c:192-197 | The same for the entry of every tracked flow. |
| `Flows.Detector.UpdateStats` | xdp_prog/xdp_prog_kern.c:153-237 | Tracks the packet in its flow's entry, or refuses a new flow and changes nothing; a new flow is refused when the map is full; the label is the tree's answer on the entry's features. |
| `Flows.Detector.Classify` | xdp_prog/xdp_prog_kern.c:208-229 | Features and label are set from the statistics, which do not change. |
| `Flows.Detector.HandlePacket` | xdp_prog/xdp_prog_kern.c:241-271 | Only LLDP is dropped; every other IP packet is accounted, and counted and classified in its own flow or refused with a new flow, and no other flow changes; entries and counters then tell exactly the run of frames so far, and the features of the entry, index by index, are the numbers of its flow in that run. |
| `Flows.FeaturesOfRun` | xdp_prog/xdp_prog_kern.c:208-216 | Index by index, the features of an entry are duration, packets and bytes modulo 2^32, largest and least length, and least positive gap of its run, or 0 without one. |
| `Frames.TransportRoundTrip` | xdp_prog/xdp_prog_kern.c:86-102 | A TCP or UDP frame built from addresses, ports, header length and any other bytes is parsed to exactly that flow. |
| `Frames.IcmpRoundTrip` | xdp_prog/xdp_prog_kern.c:74-84 | An ICMP frame is parsed to its addresses, and is a special ping if and only if it is a request from 192.168.50.3 to 192.168.50.4 or a reply the other way. |
| `Frames.OtherRoundTrip` | xdp_prog/xdp_prog_kern.c:66-99 | A frame of any other protocol is parsed to its addresses, whatever follows the header. |
| `Frames.OtherTypes` | xdp_prog/xdp_prog_kern.c:57-64 | A frame of another type is LLDP or not parsed. |
| `Frames.CutOff` | xdp_prog/xdp_prog_kern.c:57-93 | Cut off after any number of bytes, a frame is parsed if and only if every header it needs is complete. |
| `Frames.EveryFrameIsBuilt` | xdp_prog/xdp_prog_kern.c:53-104 | Every IPv4 frame that holds its header, with a header length of at least five words, is built that way from its own fields. |
| `Frames.ShortHeaderPorts` | xdp_prog/xdp_prog_kern.c:86-95 | With a header length of zero the ports are read from the IPv4 header. |
| `Flows.Detector.Account` | xdp_prog/xdp_prog_kern.c:257-268 | The accounted packets and bytes go up; the packet is counted by its flow, or it is refused, which a known flow never is and a new one in a full map always. |
| `Flows.RunBalances` | xdp_prog/xdp_prog_kern.c:241-271 | Over every run: packet counts of all flows sum to the accounted packets minus the refused ones, and without refusals their bytes sum to the accounted bytes plus those of the special pings, modulo 2^32. |
| `Flows.HandlesTells` | xdp_prog/xdp_prog_kern.c:257-268 | One frame more: counters that tell the run go on telling it. |
| `Flows.Detector.EntryDescribesRun` | xdp_prog/xdp_prog_kern.c:153-237 | A flow's entry describes exactly its tracked packets of the run; a flow without entry has none. |
| `Flows.PingNotAccounted` | xdp_prog/xdp_prog_kern.c:74-84 | A concrete special ping of 42 bytes: its flow counts them, the accounting counts the packet and no byte. |
| `Flows.SumUpdate` | xdp_prog/xdp_prog_kern.c:179-194 | The sum over all flows after one entry is added or changed. |
| `Vlan.XdpBuffer.TagPush` | common/rewrite_helpers.h:69-108 | In the packet buffer: succeeds if and only if there is room in front, and then the frame is the one with the tag. |
| `Vlan.XdpBuffer.TagPop` | common/rewrite_helpers.h:22-64 | Succeeds if and only if the frame is tagged, returns the tag and removes it. |
| `Vlan.PopPush` | common/rewrite_helpers.h:22-108 | Popping undoes pushing. |
| `Vlan.PushPop` | common/rewrite_helpers.h:22-108 | Pushing undoes popping if and only if the tag was an 802.1Q one. |
| `Vlan.PopsUndoPushes` | common/rewrite_helpers.h:22-108 | Any k pushes followed by k pops restore the frame and return the tags in reverse. |
| `Vlan.ParseEthHdrVlan` | common/parsing_helpers.h:79-122 | Reports a cut-off header, or what walking the tags finds, inside the frame; the type is the field just before the position. |
| `Vlan.WalkedType` | common/parsing_helpers.h:79-122 | The walk goes past as many tags as it reports, returns the field before the position it reaches, and stops early only where no whole tag follows. |
| `Vlan.ParseAfterPush` | common/parsing_helpers.h:79-122 | After a push the parser finds the new 12-bit identifier first and the rest four bytes later, for frames with fewer tags than it looks at. |
| `Netlink.Request.Add` | lib/libbpf/src/nlattr.h:141-158 | Too long or inconsistent arguments are refused without a change; otherwise the message is the old one with one more attribute. |
| `Netlink.Request.BeginNested` | lib/libbpf/src/nlattr.h:160-168 | Opens a level at the returned place, or refuses. |
| `Netlink.Request.EndNested` | lib/libbpf/src/nlattr.h:170-174 | The open level becomes one attribute of the level around it. |
| `Netlink.Request.ParsesBack` | lib/libbpf/src/nlattr.h:136-174 | A message with nothing open parses back to the tree of attributes that was added. |
| `Netlink.EncodedDecodes` | lib/libbpf/src/nlattr.c:25-43 | Whatever encodes an attribute tree parses back to that tree, at every depth. |
| `Netlink.Parse` | lib/libbpf/src/nlattr.c:104-134 | On any bytes: it ends, every indexed attribute lies inside them under its own type, the last one of a type wins, and it fails if and only if an attribute breaks the policy. |

## Findings

Places where the code does not do what its documentation or its callers suggest; each has a lemma with the
exact condition.

- A lookup in a hash map used as a multimap is documented to return the last inserted entry
  (`lib/libbpf/src/hashmap.h:114-116`). Growth reverses chains, so this holds if and only if the capacity
  has doubled an even number of times since, or the entry is the only one (`HashMapRuns.NewestIsFound`,
  `HashMapRuns.GrowthHidesNewest`).
- An insertion that fails for lack of memory has grown the table, and so has changed the order of entries
  with equal keys, if and only if it needed to grow and the buckets could be allocated
  (`HashMaps.HashMap.Insert`, `HashMapRuns.FailureHidesNewest`).
- The loader reserves stack for 32 programs and the generator does not check the number. With more, a run
  leaves the stack exactly as `LoaderRuns.LoaderOutcome` and `LoaderRuns.ThirtyThreePrograms` say. From
  about 10900 programs on the first jump's offset wraps (`GenLoader.SkipsExactly`,
  `GenLoader.LongCleanupFaults`).
- A descriptor 0 returned by a call cannot be told from an empty place and is never closed. After a failure
  it stays open if and only if some call returned it (`LoaderRuns.LoaderOutcome`), and such runs exist
  (`LoaderRuns.ZeroStaysOpen`).
- A forward-declared enum is meant to be compatible with a 64-bit enum (`lib/libbpf/src/btf.c:3490-3495`). The
  comparison of graphs compares kinds first, so there the two agree if and only if their widths are equal
  (`Equiv.DeclarationMeetsDefinition`); the pass over primitive types does accept them
  (`Dedup.DedupState.TryPrim`).
- A header length below five words is not refused, and the ports are then read from the IPv4 header itself
  (`Frames.ShortHeaderPorts`); from five words on every complete frame parses back to what it was built
  from (`Frames.EveryFrameIsBuilt`).
- Data in the other byte order is written back unchanged if and only if its sections are packed
  (`TypeSections.RestoresPacked`).
- A fixed-point comparison differs from the trained one for values in the half step above a threshold
  (`Classifier.ComparisonExact`, `Classifier.NearMissFlips`).
- Training allows leaves 100 splits deep, the kernel looks at most 100 nodes deep, so such a leaf is
  answered with label 0 (`Classifier.PredictionExact`, `Classifier.DeepLeaf`).
- The length of a special ping is never set, so it is missing from the accounted bytes while the flow
  counts it (`Flows.RunBalances`, `Flows.PingNotAccounted`).
- Popping a service tag and pushing it back turns it into an 802.1Q tag (`Vlan.PushPop`).
- The model loader allows 600 nodes and the kernel 5000 (`xdp_prog/read_model_to_map.py:13`,
  `xdp_prog/common_kern_user.h:13`), so the kernel looks for the number of nodes outside what the loader
  provides (`Classifier.CountOutside`); with a number that is not the right one the answer is that of the
  tree if and only if the path stays below it (`Classifier.AnswerNeedsCount`).

## Left out

- Reading files and ELF sections, loading BTF into the kernel, system calls and their wrappers, option
  parsing, pinning, printing and statistics programs: calls into code outside the repository.
- `.BTF.ext` data, and adding one BTF object to another.
- Forward declarations resolved by name: the code notes that this can be wrong for types with equal names,
  so meaning is stated up to what declarations hide.
- Dedup.DedupState.Dedup: takes a graph whose type ids exist, whose base refers to the base only and in
  which by-value nesting is acyclic, as C programs have them; the loader of BTF data does not check this.
- Dedup.DedupState.FindComposite: says nothing about morphisms when the base has forward declarations,
  because a match that would have to resolve one of them is deliberately not used.
- Order.Dump.OrderType: takes a graph in which every cycle of reference types passes through a composite;
  on others the recursion in the source does not end.
- Typedefs may be queued twice by the dump order, which the source tolerates when it prints; the text that
  is printed is not part of this model.
- GenLoader.Gen.Finish: promises nothing when BTF data is loaded twice or an inner map is created while one
  is open, because the second descriptor overwrites the place of the first. The library loads BTF data once
  for an object (`lib/libbpf/src/libbpf.c:3137`) and creates an inner map right before the outer map that
  uses it, which closes it; the generator itself does not check this, so the model does not demand it but
  records it in the ghost field `reused`.
- GenLoader.Gen.MapCreate: the inner map's place is not cleared after its close, so a later cleanup closes
  that number again; only closing at least once is stated.
- GenLoader.Gen.ProgLoad: descriptors opened by relocations are closed on the way to the check of the load;
  when a relocation itself fails they stay open, as in the source, and only BTF, map and program descriptors
  are claimed.
- GenLoader.Gen.MapUpdateElem: the bytes that the loader assembles in its data are not modelled, only which
  words of it hold descriptors and which instructions fill the attributes; names and sizes are parameters
  without values.
- GenLoader.Gen.AddData: says where data goes, how much room it takes and when it is refused as too long,
  not what it contains.
- GenLoader.Gen.EmitReloKfunc: the values stored into the relocated instruction are not modelled.
- GenLoader.Gen.EmitReloTypeless: the values stored into the relocated instruction are not modelled.
- GenLoader.Gen.EmitReloKsymBtf: the values stored into the relocated instruction are not modelled.
- GenLoader.Gen.CleanupRelos: a new symbol's typeless flag is not set in the source unless the symbol is resolved
  as typeless, so the model leaves it open and claims the close for symbols whose flag is not set.
- Dedup.DedupState.CompactTypes: works on records as values; bytes and offsets are those of
  `Compaction.CompactRecords`.
- Dedup.DedupState.RemapTypes: the ids in `.BTF.ext` data are not remapped.
- Registers of the loader machine hold unbounded numbers except for results, which have the width of the call; the
  loader only compares, stores and shifts them.
- HashMaps.HashMap.Insert: keys and values are numbers, and the callbacks are one function to contents and
  one from contents to hashes, which is what a consistent pair of callbacks amounts to.
- StrSets.StrSet.IndexAll: the initial bytes are whole NUL-terminated strings, as the callers pass them.
- StrSets.StrSet.AddStr: strings with a NUL inside cannot be passed in C.
- TypeSections.BtfFile.Parse: the native order is little-endian; a split object's base only decides which
  string sections are accepted.
- Flows.Detector.UpdateStats: packets are handled one after the other; two of the counters are atomic in the
  source and the others are not, so nothing is said about several processors.
- Processing-time accounting and the unused fixed-point operations of `xdp_prog/common_kern_user.h`.
- Training itself and its rounding to 32-bit floating point; the reference is the exact comparison.
- Netlink.Request.EndNested: takes the place that the matching begin returned, as its callers pass it.
