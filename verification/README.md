# Verified model of the event core, the mirror engine and the relay

This project models, in Dafny 4.11, the parts of the repository in which a fast or incremental form is meant to agree
with a simple one, or in which state is carried over many steps, and proves that it does:

- **Chain resolution** (`Lineage`, `ChainWalk`, `ResolveSpec`, `Resolve`, `ResolveMeaning`, `ResolveLaws`).
  `Resolve.Resolve` follows the source: memoised lineage classification, deletion cascade, walk with self-fork
  detection, halting application, overlay states. It is proved equal to `ResolveSpec.ResolveOf`, which only says: the
  canonical path through the root author's own unretracted patches, applied until one fails, with overlays judged at
  their target. `ResolveMeaning` reads every field of that answer off the events and the applier. Confluence,
  noninterference, and the effect of a retraction are then proved of that specification.
- **Admission** (`Admission`, `AdmitModel`, `AdmitDelta`, `AdmitLaws`). The incremental reason sets against the oracle,
  over every run, with the exact condition for a multi-id `unobserve`.
- **The store** (`Validate`, `StoreTables`, `StoreReducer`, `StoreLaws`, `Locality`, `MemoLaws`, `Store`, `StaleReads`,
  `Storage`). The reducer's verdict, index and epoch tables, said exactly; verdicts and a confluent view over runs; the
  epoch-gated memo as a class, with the exact conditions under which its answers are fresh and a run of the store at each
  of the two ways they are not; and the indexed storage as a class proved equal to an unindexed scan.
- **Patches** (`PatchMatcher`, `PatchApply`, `PatchPrint`, `Widening`, `Fence`, `Build`). Unique-match application with
  a charged work bound, the context-widening search, the fence printer and parser (section 4.5 of CommonMark), and the
  self-check of a built patch.
- **The mirror's sync engine** (`Notice`, `MirrorModel`, `MirrorBatch`, `MirrorRoots`, `MirrorRootPass`,
  `MirrorRelations`, `MirrorRelationPass`, `Mirror`, `MirrorFixpoint`, `MirrorResolve`). C1-C5 and R1-R5 over a ledger, run
  after run: one patch line per root, exact deletions, current endpoints, exactly when all re-runs are quiet, and agreement
  with `resolve`.
- **The relay** (`Paging`, `DualStore`, `SearchLimit`). Backward paging with exact count and difference, the two-store
  write with its drift count, and the token bucket with its rate bound.

`Prelude` and `Ordering` hold small shared helpers; `Events` and `PatchTypes` hold the shared data model.

## Reading the model

- Event ids and public keys are fixed-width lowercase hex in the source; here they are integers, so string order of ids is
  integer order. An id determines its event (ids are content hashes, `packages/core/src/events.ts:286`); where a statement
  needs that, it says `IdDetermines`.
- Tags are read once, into labels (`t`), references with their marker (`e`) and indexers (`i`).
- Where the source iterates an array or `Map` whose order must not matter, the model picks elements of a set in an
  arbitrary order, so every order is covered. Where order matters (storage insertion order, hunks, engine events) it is a
  sequence.
- `scrutinyEventType` never looks at `kind`. Events that carry a type tag are assumed not to be kind 5 (`KindFitsType`):
  otherwise the same event is a deletion to the resolver and a patch or root to the epoch tables.
- The patch applier is a parameter of `Resolve`: any function of content and event content. `PatchApply` models the
  repository's own one.

Things the proofs show about the code that its comments do not say:

- `unobserve` with several ids can strand `root-chain:` reasons; `AdmitLaws.UnobserveExactIff` gives the exact condition
  and `AdmitLaws.BindingBeforeRootStrands` a concrete case. The reasons remain consistent with reversal: undoing forward
  deltas always returns to the empty state.
- `Resolution.pending` can go stale in the memo when a reply lineage crosses into another root's patches.
  `MemoLaws.UnbumpedPendingIff` says exactly which arrivals and departures do it, and `StaleReads.CrossingLineageGoesStale`
  is a run of the store on which it happens; `StaleReads.ReadAcrossArrival` reads it through the memo.
- `chain`, `overlays` and `annotations` go stale exactly when the queried id itself is observed, or leaves, as something
  other than a Product or Metadata, because such an event does not bump its own id (`MemoLaws.UnbumpedViewIff`,
  `MemoLaws.EpochFixesResolution`; `StaleReads.LateTypeGoesStale` and `StaleReads.ReadAcrossLateType` at an input). A reader
  can tell: the served answer then has the id's presence wrong (`Store.MemoStore.ResolveRoot`).
- `packages/core/src/patch-matcher.ts:246-250` says that widening is exhausted only by its work ceiling, because a pattern
  that spans the whole file is unique. With a ceiling that covers every trial the search is nevertheless exhausted exactly
  when the file is made of newlines only and no smaller context was clear (`Widening.ExhaustedIff`);
  `Widening.NewlinesExhaustTheSearch` is the two-newline file. The code is kept as it is.
- `widenContext` passes over hunks without a pattern, so its trial ends with the applier's lines exactly when such hunks
  insert nothing (`Widening.TrialMirrorsIff`). With a hunk that drops the final newline the two can end alike all the same
  (`Widening.DroppedNewlineHidesInsertion`).
- `scanAll` reports a second as holding "more than" the page size when it holds at least that many events
  (`Paging.CompleteIff`), and the effective largest page is 256000, the first doubling of 1000 that reaches `1 << 17`.
- Running the engine again on the same desired state is not always a fixpoint. All further runs are quiet if and only if
  no desired root is missing from its own corpus' source list while the ledger knows its source, and no re-rooted content
  brings a supersede notice of its own other than the one published (`MirrorFixpoint.RerunsQuietIff`). A disowned root is
  published, retired in silence and published again (`MirrorFixpoint.DisownedRootReturns`).
- The engine's fork guards have nothing to catch: `MirrorRootPass.GuardNeverFires`.

## Model

| member | source | states |
|---|---|---|
| Events.ByIdKeepsFirst | packages/core/src/events.ts:291-295 | deduplication keeps, for every id present, the earliest event that bears it |
| Events.ByIdConfluent | packages/core/src/events.ts:286-295 | when ids determine events, deduplication depends on the set of events only |
| Events.DedupeById | packages/core/src/events.ts:291-295 | the loop computes first-occurrence-wins deduplication |
| Events.TypeMeans | packages/core/src/events.ts:314-320 | an event has a type exactly when one of its tags, and one only, is a type tag |
| Events.FirstRefMeans | packages/core/src/events.ts:130-138 | a marked reference read from an event is the first that carries the marker; there is none exactly when no tag carries it |
| Events.OnlyRefMeans | packages/core/src/events.ts:125-128 | the references with a marker are exactly one exactly when one place in the tag list carries it |
| Lineage.Classifier.Classify | packages/core/src/resolve.ts:317-353 | the memoised recursion with its cycle guard terminates and classifies a patch as its lineage says, keeping every memo entry right |
| Lineage.Classifier.ClassifyAll | packages/core/src/resolve.ts:354-363 | in whatever order the patches are visited, every one gets its class |
| Lineage.ClassStep | packages/core/src/resolve.ts:317-353 | a patch's class is decided by its hop: chain at the root, held at an unobserved id, else its parent's class or ignored |
| Lineage.ClassMeans | packages/core/src/resolve.ts:317-353 | the classification read off the reply target alone: the root, an unobserved id, a foreign event, or the parent's class |
| Lineage.LoopIsIgnored | packages/core/src/resolve.ts:317-329 | a lineage that returns to itself never ends and is ignored |
| Lineage.MemoIsRight | packages/core/src/resolve.ts:317-353 | entries recorded while a walk is open are right for every order of visits |
| Lineage.ClassAfterArrival | packages/core/src/resolve.ts:337-348 | an arrival changes the class of exactly the patches whose lineage waited for it: they take its own class if it is by the root's author, and are ignored otherwise |
| ChainWalk.Cascade | packages/core/src/resolve.ts:214-243 | the result is the least set that holds the deleted candidates and is closed under replies |
| ChainWalk.RemovedHasCause | packages/core/src/resolve.ts:214-243 | a candidate is removed only by its own deletion or through a removed parent |
| ChainWalk.ByReplyTarget | packages/core/src/resolve.ts:369-381 | every bucket holds exactly the surviving replies to its id |
| ChainWalk.Walk | packages/core/src/resolve.ts:383-418 | the walk returns the canonical path and the competing patches at its end |
| ChainWalk.NextIsNew | packages/core/src/resolve.ts:389-418 | the visited guard never fires: the only reply to a position was not visited before |
| ChainWalk.CanonicalUnique | packages/core/src/resolve.ts:383-418 | a set of patches has one canonical path, so arrival order cannot matter |
| Resolve.HonouredDeletions | packages/core/src/resolve.ts:186-206 | exactly the observed non-deletions that their own author retracted |
| Resolve.WalkIgnoresCascade | packages/core/src/resolve.ts:364-418 | removing any set between the deleted candidates and the full cascade gives the same walk over linkable patches as over all unretracted ones |
| Resolve.ApplyChain | packages/core/src/resolve.ts:421-505 | content, applied ids, stop reason and every overlay trial come from applying the path in order until one patch fails |
| Resolve.ClassifyAgainst | packages/core/src/resolve.ts:442-457 | every overlay of a position is tried against the content reached there |
| Resolve.OverlayStateRight | packages/core/src/resolve.ts:616-637 | the state chosen for an overlay is the one its trial, its target's presence and the tip decide |
| Resolve.FollowChain | packages/core/src/resolve.ts:301-418 | classification, cascade, bucketing and walk give the canonical path of the author's unretracted patches, and the held ones |
| Resolve.Render | packages/core/src/resolve.ts:421-597 | chain result, overlays and annotations in report order equal the specification's |
| Resolve.Resolve | packages/core/src/resolve.ts:257-605 | the whole function equals the order-free specification on the deduplicated events |
| ResolveSpec.AnnotationKeysDiffer | packages/core/src/resolve.ts:580-597 | no two annotations of a resolution compare equal, so their order is determined |
| ResolveMeaning.WalkMeans | packages/core/src/resolve.ts:383-418 | each patch of the path is the one unretracted patch of the root's author that replies to the place before it; the walk ends where there is none, or at a fork of all of those, two or more |
| ResolveMeaning.ChainMeans | packages/core/src/resolve.ts:421-559 | the chain applies the path patch by patch: content, tip and applied ids are those of the last one taken, a halt or an abort names the first one refused and why, and a fork shows exactly when everything before it applied |
| ResolveMeaning.AbsentMeans | packages/core/src/resolve.ts:273-299 | an unobserved root has no chain and holds every patch of it pending; an observed one of another type has nothing |
| ResolveMeaning.PendingMeans | packages/core/src/resolve.ts:597-602 | the pending list is the held patches, in order of id |
| ResolveMeaning.OverlayMeans | packages/core/src/resolve.ts:616-637 | each overlay is another author's unretracted patch: clean at the tip, stale at an older place, where it applies; a conflict where it is refused, unclassified at a limit, orphaned where its target is no reached position |
| ResolveMeaning.OverlaysComplete | packages/core/src/resolve.ts:560-578 | every such patch has its overlay, and overlays come by target and then by id |
| ResolveMeaning.AnnotationsMean | packages/core/src/resolve.ts:421-597 | annotated are exactly the halt or abort of the chain, the overlays that hit a limit, and the fork with its branches in order of id |
| ResolveMeaning.AnnotationOrder | packages/core/src/resolve.ts:580-597 | protocol errors come first, then limits, then the fork, each in order of id |
| ResolveLaws.Confluence | packages/core/src/resolve.ts:257-605 | any permutation or duplication of the events gives an identical resolution |
| ResolveLaws.Noninterference | packages/core/src/resolve.ts:301-418 | with the root observed, events of other keys leave the chain result unchanged |
| ResolveLaws.RetractionCuts | packages/core/src/resolve.ts:366-418 | retracting the i-th canonical patch, by any set of deletions that names nothing before it, cuts the walk to exactly the patches before it |
| ResolveLaws.ForkHeals | packages/core/src/resolve.ts:383-418 | once one branch of a fork is left, whichever deletions retracted the others, the walk goes on through the survivor |
| ResolveLaws.PositionsAreLinked | packages/core/src/resolve.ts:354-418 | every patch on the chain has a lineage that reaches the root, so no held patch takes a position |
| Admission.ComputeAdmission | packages/core/src/admit.ts:206-259 | the oracle's loops compute exactly the three kinds of reasons: direct trust, live bindings, root chains |
| Admission.MembersMean | packages/core/src/admit.ts:164-183 | the chain members of a root are its author's patches and that author's deletions of the root, a patch or nothing else |
| Admission.HonouredMeans | packages/core/src/admit.ts:134-142 | an honoured deletion is a kind 5 by the target's author that names it |
| Admission.IndexUnique | packages/core/src/admit.ts:206-259 | an observed set and trusted keys have one admission index |
| AdmitModel.ExactIffNothingStranded | packages/core/src/admit.ts:533-621 | the incremental reasons equal the oracle's exactly when no reason is stranded |
| AdmitModel.StepOk | packages/core/src/admit.ts:533-621 | every delta keeps the state the stranded-reason model describes |
| AdmitDelta.Working.ResyncBinding | packages/core/src/admit.ts:466-471 | a binding is credited to its endpoints exactly when it is live |
| AdmitDelta.Working.ResyncRootChain | packages/core/src/admit.ts:480-502 | a root's members carry its chain reason exactly when it is admitted |
| AdmitDelta.Working.Resync | packages/core/src/admit.ts:509-521 | after bindings and then chains, every reason of an observed root is exact |
| AdmitDelta.Working.UnobserveOne | packages/core/src/admit.ts:560-612 | one id leaves, its own reasons go, and its chain is un-cascaded only if it is still admitted at that moment |
| AdmitDelta.ApplyDelta | packages/core/src/admit.ts:533-621 | each of the four deltas takes a state of the model to the next state of the model |
| AdmitLaws.UnobserveExactIff | packages/core/src/admit.ts:560-612 | an unobserve of an exact state is exact if and only if it strands no member of a departed root |
| AdmitLaws.SingletonNeverStrands | packages/core/src/admit.ts:560-612 | unobserving one id from an exact state strands nothing |
| AdmitLaws.BindingBeforeRootStrands | packages/core/src/admit.ts:571-612 | a live binding listed before the root it alone admits leaves an observed patch with a chain reason the oracle does not give |
| AdmitLaws.RunAgreesWithOracle | packages/core/src/admit.ts:533-621 | over every run that never strands, reasons and live bindings equal the oracle's |
| AdmitLaws.UndoReturnsToEmpty | packages/core/src/admit.ts:373-380 | undoing any sequence of forward deltas in reverse returns to the empty state, with no condition on unobserve |
| AdmitLaws.ReportedArePatches | packages/core/src/resolve.ts:533-604 | every id a resolution reports as applied, halted, aborted, pending or a branch, in the chain or in an annotation, is an unretracted patch of the root's author |
| AdmitLaws.AdmittedRootCarriesItsChain | packages/core/src/admit.ts:152-183 | if a root is admitted, every patch its resolution reports is admitted through it |
| AdmitLaws.ForeignAdmittedIffTrusted | packages/core/src/admit.ts:285-301 | a foreign patch of an observed root is admitted exactly when its own author is trusted |
| AdmitLaws.VisibleOverlaysAreTrusted | packages/core/src/admit.ts:296-301 | the filtered overlays of a resolution are those of trusted authors |
| AdmitLaws.OpenViewShowsAll | packages/core/src/admit.ts:273-279 | the open view hides no overlay |
| Validate.VerdictsAreStable | packages/core/src/validate.ts:76-108 | valid and invalid verdicts never flip as the observed set grows |
| Validate.AwaitsUnobserved | packages/core/src/validate.ts:258-419 | a pending verdict awaits only ids that are not observed |
| Validate.PendingTypes | packages/core/src/validate.ts:76-108 | only bindings and patches can be pending |
| Validate.TagsDecide | packages/core/src/validate.ts:76-108 | out of scope exactly without the fabric tag; with it, invalid unless there is exactly one fabric, one version and one type tag |
| Validate.RootVerdict | packages/core/src/validate.ts:196-254 | a product or metadata is valid exactly when every indexer is well formed, and never waits |
| Validate.IndexerMeans | packages/core/src/validate.ts:234-254 | an indexer is well formed exactly when it is a lowercase prefix, a colon and any value |
| Validate.BindingVerdict | packages/core/src/validate.ts:258-332 | a binding is valid exactly when its one root reference is an observed product and its one link reference an observed metadata, and pending on exactly the missing ones while none is of a wrong type |
| Validate.PatchVerdict | packages/core/src/validate.ts:339-419 | a patch is valid exactly when it names one root and one reply target, its payload is acceptable, its root is a product or metadata, and it is the root author's or replies to the root or to a patch of the root author's; it waits for exactly the id that is missing |
| StoreTables.ApplyVerdict | packages/core/src/store.ts:159-171 | an event is in the invalid set and in the awaiting table exactly as its verdict says |
| StoreTables.Wake | packages/core/src/store.ts:258-283 | exactly the events waiting for the arrival are judged again; exactly the rejected ones among them become invalid, and exactly their targets move their epochs |
| StoreTables.ProcessObserved | packages/core/src/store.ts:232-284 | an arrival is judged, indexed and wakes its waiters; a root's epoch moves if and only if it is a target of the arrival or of one of the waiters |
| StoreTables.BumpTargets | packages/core/src/store.ts:201-230 | the epochs of exactly the targets of an event move |
| StoreTables.IndexPatch | packages/core/src/store.ts:240-257 | a patch is entered under its root and under each overlay target it waits for |
| StoreTables.TouchesIsTarget | packages/core/src/store.ts:201-225 | every root whose resolution an event can affect is among its epoch targets |
| StoreReducer.FoldBatch | packages/core/src/store.ts:306-348 | whatever the order inside a batch: verdicts end settled, indexes hold what its patches say and no more, every root a new or woken event touches moves its epoch, and no other epoch moves than a target's |
| StoreReducer.RetireBatch | packages/core/src/store.ts:350-402 | unobserving frees the slots of what leaves and moves the epochs of exactly its targets; verdicts and indexes stay as they are |
| StoreReducer.ApplyStoreDelta | packages/core/src/store.ts:306-422 | one delta moves the state by the reducer's step relation, which says which epochs move and which stay, and keeps its invariant |
| StoreLaws.VerdictsExactOverRuns | packages/core/src/store.ts:258-283 | over runs without unobserve, invalid ids are exactly those rejected against the final set, and every pending event is registered under each id it awaits |
| StoreLaws.ValidBindingIff | packages/core/src/admit.ts:101-132 | a tagged binding is valid exactly when admission finds its two endpoints, both observed, and well typed |
| StoreLaws.ValidBindingAdmits | packages/core/src/admit.ts:206-259 | a trusted author's valid, unretracted binding is a reason for exactly its product and its metadata |
| StoreLaws.InvalidBindingsOverRuns | packages/core/src/store.ts:258-283 | over runs without unobserve, the observed bindings on record as invalid are exactly those whose endpoints do not fit |
| StoreLaws.ViewIsConfluent | packages/core/src/store.ts:122-128 | two runs with the same final observed and trusted sets have the same view, whatever order and batching |
| Locality.ViewIsLocal | packages/core/src/resolve.ts:257-605 | chain, overlays and annotations depend only on the root, its patches, their retractions and the presence of overlay targets |
| Locality.PendingIsLocal | packages/core/src/resolve.ts:337-348 | when reply lineages stay inside the root's own patches the whole resolution is as local |
| Locality.ViewAgreesIff | packages/core/src/resolve.ts:257-300 | two observed sets that agree on a root's patches, retractions and reply targets, and on the root where it can be patched, give the same view if and only if they agree on the root's presence |
| Locality.PendingMovesIff | packages/core/src/resolve.ts:337-348 | an arrival that changes nothing else a root's resolution reads changes its pending list if and only if a lineage of the root author's waited for it and it does not itself keep that lineage waiting |
| MemoLaws.EpochsGrow | packages/core/src/store.ts:188-190 | along every run each root's epoch never decreases |
| MemoLaws.EpochFixesResolution | packages/core/src/store.ts:467-495 | over every run, equal epochs mean equal chain, overlays and annotations if and only if the root's presence is equal, as it is when observed only as a root; and an equal resolution when lineages stay inside |
| MemoLaws.UnbumpedDelta | packages/core/src/store.ts:201-284 | a delta that does not move a root's epoch changes nothing its resolution reads, except whether an id that is no root is there |
| MemoLaws.UnbumpedViewIff | packages/core/src/store.ts:209-210 | such a delta keeps chain, overlays and annotations if and only if it keeps the root's presence |
| MemoLaws.UnbumpedPendingIff | packages/core/src/store.ts:246-247 | such a delta that brings or takes one visible event makes the pending list stale if and only if a lineage of the root author's ends at that event's id and the event does not keep it waiting |
| Store.MemoStore.Fold | packages/core/src/store.ts:306-422 | every cached answer stays sound across any delta |
| Store.MemoStore.Add | packages/core/src/store.ts:817-861 | exactly the events that pass verification are folded, and the verdicts reported are those against the new state |
| Store.MemoStore.ResolveRoot | packages/core/src/store.ts:467-495 | a read is served from the entry whose epoch and options match, else resolved afresh; what it returns is fresh if and only if it has the root's presence right, which holds for ids only ever observed as roots, and `pending` with it when lineages stay inside |
| Store.MemoStore.ViewRoot | packages/core/src/store.ts:876-885 | only the overlays are filtered, through the view the caller gives or else the current trust view; chain, pending and annotations are the resolution's |
| StaleReads.CrossingLineageGoesStale | packages/core/src/store.ts:246-247 | on a run of two batches the epoch of a product stands while its pending list goes from one patch to none |
| StaleReads.ReadAcrossArrival | packages/core/src/store.ts:467-495 | the memo serves the old pending list after that arrival, which a fresh resolution does not give |
| StaleReads.LateTypeGoesStale | packages/core/src/store.ts:209-210 | on a run that observes an untyped event the epoch of its id stands while its chain goes from not observed to not a root |
| StaleReads.ReadAcrossLateType | packages/core/src/store.ts:467-495 | the memo still answers that the id is not observed |
| Storage.InMemoryEventStorage.PutOne | packages/core/src/store.ts:723-745 | a replacement keeps its place, indexes stay exact, and the deletion cache survives only arrivals that cannot change it |
| Storage.InMemoryEventStorage.Put | packages/core/src/store.ts:723-745 | a batch stores the last event of every id in first-arrival order |
| Storage.ArrivalKeepsDeletions | packages/core/src/store.ts:729-740 | a new non-deletion that no stored deletion by its author names leaves the deletion set as it was |
| Storage.InMemoryEventStorage.AwaitedByDeletion | packages/core/src/store.ts:732-740 | the index lookup finds exactly whether a stored deletion by the arrival's author names it |
| Storage.InMemoryEventStorage.HonouredlyDeletedIds | packages/core/src/store.ts:606-619 | exactly the stored non-deletions that their own author retracted |
| Storage.InMemoryEventStorage.CandidateIds | packages/core/src/store.ts:680-719 | pruning never loses an event the filter matches |
| Storage.IntersectAll | packages/core/src/store.ts:709-718 | the intersected bucket holds exactly the ids in every bucket |
| Storage.InMemoryEventStorage.Query | packages/core/src/store.ts:746-777 | the answer is a full scan's: exactly the events that some filter selects, no id twice, by the first filter that selects them and then by rank or insertion; without filters, everything visible as inserted |
| Storage.TopRanks | packages/core/src/store.ts:764-772 | a limited filter keeps its top ranks: as many as asked for, newest first and then by id, nothing left out newer |
| Storage.OneFilterMeans | packages/core/src/store.ts:746-772 | a filter answers with exactly the visible matches, or those that fewer than its limit outrank, each once, in its own order |
| Storage.MergedAnswers | packages/core/src/store.ts:758-777 | several filters answer with exactly what some filter selects, no id twice, ordered by the first filter that selects it |
| Storage.WiderMatchesMore | packages/core/src/store.ts:788-804 | loosening a filter loses no match |
| Storage.PreciseFilterMatches | packages/core/src/store.ts:788-804 | a filter on id, author, kind and time matches exactly what agrees there |
| Storage.TagFilterMatches | packages/core/src/store.ts:788-804 | a filter on one tag value matches exactly the events that carry it at some place, references whatever their marker |
| Storage.LimitedQueriesConfluent | packages/core/src/store.ts:764-772 | limited filters answer alike over any insertion order of the same events |
| Storage.ArrivalOrderInvisible | packages/core/src/store.ts:723-777 | storages fed the same events in any order, with any repetition, answer limited queries alike |
| PatchMatcher.FromToLines | packages/core/src/patch-matcher.ts:29-35 | joining the lines of a content gives it back |
| PatchMatcher.ToFromLines | packages/core/src/patch-matcher.ts:29-35 | splitting joined lines gives them back |
| PatchMatcher.LineCountMeans | packages/core/src/patch-matcher.ts:45-47 | the line count is the number of newlines plus one for an unterminated last line |
| PatchMatcher.ReduceHunk | packages/core/src/patch-matcher.ts:80-122 | a hunk reduces exactly when every prefix is known, to the bodies of each side and the markers that qualify that side |
| PatchMatcher.Scan | packages/core/src/patch-matcher.ts:139-158 | the complete scan counts every match and keeps the first two, comparing no more than it is charged for |
| PatchMatcher.CountDecides | packages/core/src/patch-matcher.ts:139-158 | the count is none, one or more exactly as the pattern occurs nowhere, in one place, or in two different ones |
| PatchMatcher.MatchesAt | packages/core/src/patch-matcher.ts:145-153 | the inner loop decides a match at one position within the pattern's weight |
| PatchMatcher.WithinCharge | packages/core/src/patch-matcher.ts:169-171 | the charge bounds one pattern weight per scanned position |
| PatchMatcher.InnerSplice | packages/core/src/patch-matcher.ts:182-217 | away from the end a splice moves the line count by the hunk's balance |
| PatchMatcher.NewlineOnlySplice | packages/core/src/patch-matcher.ts:190-214 | a hunk that only adds or drops the final newline moves the element count but not the line count |
| PatchPrint.ContextLine | packages/core/src/patch-matcher.ts:99-118 | a line with a space in front, or an empty one, adds its body to both sides |
| PatchPrint.ChangedLine | packages/core/src/patch-matcher.ts:99-118 | a removed line adds to the pattern only, an added one to the replacement only |
| PatchPrint.MarkerLine | packages/core/src/patch-matcher.ts:88-98 | an end-of-file marker marks the side of the line above it: removed the old, added the new, unchanged both |
| PatchPrint.LeadingMarker | packages/core/src/patch-matcher.ts:88-98 | a marker before the first line marks nothing |
| PatchPrint.PrintReduces | packages/core/src/patch-matcher.ts:80-122 | a change printed as hunk lines reduces to its text before and its text after |
| PatchPrint.ReducePrinted | packages/core/src/patch-matcher.ts:80-122 | printing a change and reducing the lines gives its two texts back |
| PatchPrint.MarkersSetFinalNewline | packages/core/src/patch-matcher.ts:182-217 | at the end of the file the markers say which side lacks the final newline |
| PatchApply.Locate | packages/core/src/patch.ts:228-261 | a hunk is placed at its only match or its carried insertion point, else the reason is the right one |
| PatchApply.ApplyHunks | packages/core/src/patch.ts:209-291 | the outcome is explained by a trace of splices, each at the unique occurrence, with shift equal to the net line change; comparisons stay within the charge and the charge within the ceiling |
| PatchApply.ApplyPatchPayload | packages/core/src/patch.ts:179-291 | prose-only, malformed, header-only, too many hunks, or the traced application: each exactly when it applies |
| PatchPrint.PrintedChangeApplies | packages/core/src/patch.ts:209-291 | a payload of one printed change whose old text occurs once replaces that text by the new one and leaves everything around it |
| PatchPrint.OldBecomesNew | packages/core/src/patch.ts:209-291 | a hunk that removes one whole text and adds another takes the one to the other |
| PatchPrint.InsertionApplies | packages/core/src/patch.ts:228-243 | a hunk without a pattern puts its lines after the line its header names |
| PatchApply.OutcomeUnique | packages/core/src/patch.ts:209-291 | content, hunks and ceiling admit one trace and one outcome |
| PatchApply.HeaderNumbersAreAdvisory | packages/core/src/patch.ts:239-243 | changing the header numbers of hunks that carry a pattern changes nothing |
| PatchApply.ShiftKeepsThePlace | packages/core/src/patch.ts:212-219 | a header position carried by the shift still names the same place in the changed content |
| PatchApply.InsertionKeepsThePlace | packages/core/src/patch.ts:232-243 | a hunk without a pattern is put at its place of the original content, whatever the hunks before it did above |
| PatchApply.InsertionStaysInside | packages/core/src/patch.ts:232-243 | headed past either end of the content it goes to that end, a final newline kept |
| Widening.WidenContext | packages/core/src/patch-matcher.ts:259-299 | the search terminates, steps by one, and stops at the first clear trial, at the ceiling, or at full context |
| Widening.RunTrial | packages/core/src/patch-matcher.ts:275-293 | a trial is cut off, ambiguous or clear exactly as its charge and its patterns say |
| Widening.TrialPredicts | packages/core/src/patch-matcher.ts:259-299 | a clear trial within the applier's ceiling is an application that yields the trial's lines |
| Widening.WideningPredictsApplier | packages/core/src/patch-matcher.ts:259-299 | what the search settles on, all patterns non-empty, is what any run of the applier does |
| Widening.WideningPredictsPayload | packages/core/src/patch.ts:179-291 | the same through the printed payload, hunk ceiling included |
| Widening.TrialMirrorsIff | packages/core/src/patch-matcher.ts:277 | a run of the applier that reaches the last hunk ends with the clear trial's lines if and only if no pattern-free hunk inserts anything, end-of-file markers included unless one drops the final newline |
| Widening.MirrorExistsIff | packages/core/src/patch-matcher.ts:277 | without markers a run of the applier that ends with the trial's lines exists if and only if no pattern-free hunk inserts anything |
| Widening.DroppedNewlineHidesInsertion | packages/core/src/patch-matcher.ts:196-217 | a hunk that drops the final newline can swallow what a pattern-free hunk inserted, so that both end alike |
| Widening.WholeFileUniqueIff | packages/core/src/patch-matcher.ts:246-250 | a whole-file pattern occurs once if and only if the file is not made of newlines only |
| Widening.ExhaustedIff | packages/core/src/patch-matcher.ts:246-252 | with a ceiling that covers every trial the search is exhausted if and only if the file is newlines only and no smaller context is clear |
| Widening.NewlinesExhaustTheSearch | packages/core/src/patch-matcher.ts:296-297 | the search on a file of two newlines, from three lines of context, ends exhausted at full context with its ceiling never reached |
| Fence.LongestBacktickRun | packages/core/src/build.ts:218-222 | some run has the returned length and none is longer |
| Fence.FencePatchPayload | packages/core/src/build.ts:225-237 | the fence has at least three backticks, more than any run of the payload, and no more than needed |
| Fence.FindFencedBlocks | packages/core/src/validate.ts:452-494 | the nested loops find the blocks in order, each from its opener to its first closer or the end |
| Fence.FencedIsOneBlock | packages/core/src/build.ts:234-237 | a fenced payload reads back as one closed block with the payload intact |
| Fence.FenceRoundTripIff | packages/core/src/validate.ts:452-504 | finding the payload of a fenced payload returns it if and only if it is empty or newline-terminated, whatever runs it contains |
| Fence.PayloadsTerminated | packages/core/src/validate.ts:484-489 | every payload found is empty or newline-terminated |
| Fence.FirstPayload | packages/core/src/validate.ts:502-504 | the payload is the first payload block's, and there is one exactly when some block is one |
| Fence.OpenerMeans | packages/core/src/validate.ts:459-468 | a line opens a block exactly when it is at most three spaces, three or more of one fence character and an info string on one line, without backticks after a fence of backticks |
| Fence.CloserMeans | packages/core/src/validate.ts:470-483 | a line closes a block exactly when it is at most three spaces, the fence character as often as in the opener or more, and blanks |
| Fence.InfoMeans | packages/core/src/validate.ts:436-439 | an info string marks a payload exactly when its first word is `diff` or `patch`, in capitals or not |
| Fence.PayloadMeans | packages/core/src/validate.ts:442-504 | the payload of a content is that of its first block fenced by backticks and so marked; a block of tildes carries none |
| Build.BuildPatch | packages/core/src/build.ts:295-343 | the self-check of a built patch passes whenever the search settled, every hunk has a pattern, and printing and diffing keep their contracts |
| Notice.InsertSupersedesLine | packages/mirror/src/emit/seccerts/engine.ts:134-141 | the notice goes in front of the first record card, blank lines trimmed, or to the end |
| Notice.StripSupersedesNotice | packages/mirror/src/emit/seccerts/engine.ts:151-162 | the first notice line is taken out and the rest joined over one blank line |
| Notice.NoticeMeans | packages/mirror/src/emit/seccerts/engine.ts:143-144 | notices are exactly the sentences about an id of 64 lowercase hex digits with any summary on one line |
| Notice.CardMeans | packages/mirror/src/emit/seccerts/engine.ts:136 | a record card is exactly a line that starts with the label, blanks aside |
| Notice.NoticeSurvives | packages/mirror/src/emit/seccerts/engine.ts:134-162 | stripping finds an inserted notice when the content had none |
| Notice.NoticeRoundTripIff | packages/mirror/src/emit/seccerts/engine.ts:146-162 | inserting and stripping give the content back if and only if exactly one blank line precedes its card, or without a card it does not end blank |
| MirrorModel.RootStep | packages/mirror/src/emit/seccerts/engine.ts:341-363 | publishing a root starts its line and keeps every other one |
| MirrorModel.PatchStep | packages/mirror/src/emit/seccerts/engine.ts:413-455 | a patch against the stored tip lengthens the root's one line |
| MirrorModel.NoSelfFork | packages/mirror/src/emit/seccerts/engine.ts:22-26 | no two patches of a live root ever share a parent |
| MirrorBatch.SortByRank | packages/mirror/src/emit/seccerts/engine.ts:634-636 | new roots are published in group order, nothing lost |
| MirrorBatch.GroupsInOrder | packages/mirror/src/emit/seccerts/engine.ts:89-107 | corpus products go first, then the listed corpora in turn, then snapshots, then everything else |
| MirrorBatch.Assemble | packages/mirror/src/emit/seccerts/engine.ts:633-643 | the published sequence holds exactly the batch: new roots by group, bindings between unreplaced roots, patches, each re-rooted root followed by the bindings re-pointed to it, deletions last |
| MirrorBatch.BatchStaged | packages/mirror/src/emit/seccerts/engine.ts:633-643 | in that order no kind of event comes early, and a re-pointed binding stands after the root it names with only such bindings between |
| MirrorRoots.PatchSettles | packages/mirror/src/emit/seccerts/engine.ts:374-385 | after a patch the next comparison finds what it patched to |
| MirrorRoots.MoveSettles | packages/mirror/src/emit/seccerts/engine.ts:374-385 | after a re-root the inserted notice is looked through |
| MirrorRootPass.ProcessRoot | packages/mirror/src/emit/seccerts/engine.ts:324-475 | each desired root takes the branch C1-C4 demand, leaves the row that branch promises, and keeps the invariant |
| MirrorRootPass.PublishRoot | packages/mirror/src/emit/seccerts/engine.ts:337-365 | C1: exactly one event is signed, the root's, and a fresh live row is left |
| MirrorRootPass.KeepRoot | packages/mirror/src/emit/seccerts/engine.ts:386-411 | C2: no event; the row changes only in its source hash and only under the current generator |
| MirrorRootPass.PatchRoot | packages/mirror/src/emit/seccerts/engine.ts:413-455 | C3: exactly one event is signed, the patch from the stored tip to the effective content, and the row moves to it |
| MirrorRootPass.ReRoot | packages/mirror/src/emit/seccerts/engine.ts:458-505 | C4: exactly two events are signed, a superseding root carrying the notice and the old root's deletion, and a fresh row is left |
| MirrorRootPass.GuardNeverFires | packages/mirror/src/emit/seccerts/engine.ts:417-422 | no tip is patched or re-rooted twice in a run |
| MirrorRootPass.RetireGone | packages/mirror/src/emit/seccerts/engine.ts:478-520 | C5: exactly the live rows of known sources no longer listed are retired, with no event |
| MirrorRelationPass.ProcessRelation | packages/mirror/src/emit/seccerts/engine.ts:533-609 | each desired relation is skipped, bound, kept or replaced as R1-R3 and R5 demand |
| MirrorRelationPass.Replace | packages/mirror/src/emit/seccerts/engine.ts:596-609 | R3 and R5: the stored binding is deleted and its successor bound to the current roots |
| MirrorRelationPass.RetractAbsent | packages/mirror/src/emit/seccerts/engine.ts:611-631 | R4: exactly the live relations absent from the projection are deleted and retracted |
| Mirror.SecCertsLedger.UpsertRoots | packages/mirror/src/ledger/seccertsLedger.ts:274-314 | rows are applied in order by key, the last one winning |
| Mirror.SecCertsLedger.UpsertRelations | packages/mirror/src/ledger/seccertsLedger.ts:316-347 | rows are applied in order by key, the last one winning |
| Mirror.RunEngine | packages/mirror/src/emit/seccerts/engine.ts:253-646 | a run leaves every root and relation as its class demands, publishes every event it signed exactly once, stage by stage, and no re-pointed binding before the root it names |
| Mirror.SyncedMirror.Sync | packages/mirror/src/emit/seccerts/engine.ts:253-646 | any number of runs with their rows applied keep one patch line per live root and publish stage by stage, and endpoints current when every run is full |
| Mirror.DeletionsExact | packages/mirror/src/emit/seccerts/engine.ts:317-321 | the deletions of a run name exactly the replaced roots and dropped bindings, each once, none signed in the run, none live after |
| Mirror.RetiredIff | packages/mirror/src/emit/seccerts/engine.ts:478-520 | over a run, a live root is retired exactly when the dataset lists its corpus without its source and the ledger has the source's own record; only its state changes |
| Mirror.RetractedIff | packages/mirror/src/emit/seccerts/engine.ts:611-631 | over a run, a live relation is retracted exactly when its corpus is in scope and no desired relation has its key |
| Mirror.ReplacementRootFirst | packages/mirror/src/emit/seccerts/engine.ts:633-643 | the superseding root of a replaced one is published before the old root is deleted |
| Mirror.ReplacementBindingFirst | packages/mirror/src/emit/seccerts/engine.ts:633-643 | the successor of a replaced binding is published before the old binding is deleted |
| Mirror.EndpointsFollow | packages/mirror/src/emit/seccerts/engine.ts:533-609 | when every desired endpoint is desired or live in the ledger and not retired by the run, every live binding names its endpoints' current root events |
| Mirror.ResolvableIff | packages/mirror/src/emit/seccerts/engine.ts:533-556 | an endpoint resolves in a run if and only if it is desired or live in the ledger and not retired by the run |
| MirrorFixpoint.RerunsQuietIff | packages/mirror/src/emit/seccerts/engine.ts:14-16 | all further runs on the same desired state publish nothing if and only if no desired root is disowned by its corpus' source list while the ledger knows its source, and every re-root fits its notice |
| MirrorFixpoint.RerunsStayQuiet | packages/mirror/src/emit/seccerts/engine.ts:14-16 | from such a state every later run, however many, publishes nothing, also just after a re-root |
| MirrorFixpoint.SteadyAgain | packages/mirror/src/emit/seccerts/engine.ts:324-520 | a run keeps the condition and leaves every desired root live and stable |
| MirrorFixpoint.VanishedReturns | packages/mirror/src/emit/seccerts/engine.ts:478-520 | a disowned root makes one of two successive re-runs publish |
| MirrorFixpoint.DisownedRootReturns | packages/mirror/src/emit/seccerts/engine.ts:478-520 | one desired product of a corpus whose source list is empty is published, then retired without an event, then published again |
| MirrorFixpoint.ReRootSettlesIff | packages/mirror/src/emit/seccerts/engine.ts:374-385 | a re-root is stable in the next run if and only if the content brings no notice of its own or equals what was published; otherwise the next run patches it |
| MirrorResolve.WalkIsLine | packages/core/src/resolve.ts:383-418 | over everything published, the canonical walk of a live root is its line, without a fork |
| MirrorResolve.PatchesStand | packages/mirror/src/emit/deletion.ts:14-29 | no patch of the mirror's is ever retracted by its own deletions |
| MirrorResolve.ResolvesToLedger | packages/core/src/resolve.ts:459-559 | when each patch of a root's own line applies to the content before it and gives the next, resolving the live root gives the ledger's tip and content |
| Paging.FetchPage | relay/internal/store/store.go:298-312 | a page is the newest events at or below the bound, up to its limit |
| Paging.ScanAll | relay/internal/store/store.go:261-295 | the scan terminates and visits every event, or names an over-full second, or the callback's failure |
| Paging.CompleteIff | relay/internal/store/store.go:283-290 | without callback failures the scan completes if and only if no second holds as many events as the largest page |
| Paging.FullPageAdvances | relay/internal/store/store.go:282-293 | moving the bound down skips nothing |
| Paging.Count | relay/internal/store/count.go:36-52 | when the scan completes, the total and every kind's count are exact |
| Paging.Diff | relay/internal/store/diff.go:36-86 | when both scans complete, exactly the events whose ids the other store lacks are written, each once |
| Paging.ImportCloses | relay/internal/store/diff.go:12-21 | importing the difference leaves nothing missing |
| DualStore.Dual.SaveEvent | relay/internal/store/store.go:123-144 | base first, a duplicate heals the index, and what the index lacks is covered by the drift count |
| DualStore.NoDriftNoGap | relay/internal/store/store.go:102-122 | with no drift the index holds exactly the stored text notes |
| DualStore.Reindex | relay/internal/store/store.go:176-219 | a completed rebuild indexes every stored text note, replaying each event once |
| SearchLimit.SearchLimiter.constructor | relay/internal/relay/searchlimit.go:41-54 | the rate spreads the tokens over a positive interval and is the tokens themselves otherwise; a burst of zero or less defaults to them |
| SearchLimit.SearchLimiter.Sweep | relay/internal/relay/searchlimit.go:93-99 | exactly the buckets that have refilled are dropped |
| SearchLimit.SearchLimiter.Take | relay/internal/relay/searchlimit.go:61-90 | a token is granted exactly when the address may have a bucket and holds a whole token; no other address' level moves |
| SearchLimit.SweepsTheFull | relay/internal/relay/searchlimit.go:93-99 | with a clock that has not gone back, the buckets that go are exactly those that hold the whole burst |
| SearchLimit.SweepKeepsLevels | relay/internal/relay/searchlimit.go:15-19 | no address can tell later that full buckets were swept |
| SearchLimit.TokensAreConserved | relay/internal/relay/searchlimit.go:61-90 | tokens granted plus tokens left never exceed tokens at the start plus the refill |
| SearchLimit.RateBound | relay/internal/relay/searchlimit.go:61-90 | in any window of any run with a clock that never goes back, an address is granted at most the burst plus rate times length |
| SearchLimit.KnownAddressServed | relay/internal/relay/searchlimit.go:80-89 | an address with a bucket is served once the refill of one token has passed |

## Left out

- Signatures, id hashing and event serialisation: ids are given; where the mirror signs, each signing mints a fresh id.
- Issue texts, rule tables, URL and version parsing, size warnings: text and lookups.
- `checkPatchPayload` and `checkPayloadGrammar`: the payload grammar enters validation as a parameter, any predicate of the event.
- `parsePatch`, `structuredPatch`, `formatPatch` of the diff library, and the mirror's own line diff: parameters with stated contracts (`Build.PrintsFaithfully`, `Build.Diffs`, `MirrorResolve.Inverts`). A diff that comes out empty, which the engine answers with an exception, is outside those contracts.
- UTF-16 code units: strings are sequences of characters, so the work charge counts characters.
- Events that are kind 5 and also carry a type tag: excluded by `KindFitsType`, because the source reads them two ways.
- Store.MemoStore.ResolveRoot: `pending` is promised under `Locality.LineageClosed`; the exact condition is stated for one arrival or departure (`MemoLaws.UnbumpedPendingIff`), not for a whole run at once.
- Store.MemoStore.Add: does not store the events; the reducer never reads the storage, which is `Storage`'s class on its own.
- Arrays that the source sorts before storing (index records, reason lists) are sets here.
- Storage filters: keys other than `ids`, `authors`, `kinds`, `since`, `until`, `#t`, `#i`, `#e` and `limit` are one arbitrary predicate; ties in the ranking use integer order of ids in place of locale collation.
- The asynchronous wrapper of the store and custom storage adapters.
- Widening.TrialMirrorsIff: leaves out hunks that drop the final newline, for which it is false (`Widening.DroppedNewlineHidesInsertion`).
- Engine texts: the supersede summary and binding bodies are parameters or omitted; root facets, indexer and `imeta` tags of root events are kept in ledger rows and not in the modelled event.
- Engine warnings, counters, and the exceptions for unknown roles or malformed event shapes.
- MirrorFixpoint.RerunsQuietIff: assumes that the notices the engine writes are ones it recognises (`MirrorFixpoint.NoticesRead`), as its own sentence is for event ids in hex.
- Mirror.SecCertsLedger.UpsertRoots: every row carries its `imeta`, as the engine's rows do; the fallback to the stored or empty one for a row without, and the timestamps, are not modelled.
- Mirror.EndpointsFollow: assumes that an unchanged fingerprint means unchanged endpoint keys, as the fingerprint is meant to.
- The nested loops of C5 over corpora, sources and rows are one loop over the rows they select.
- boltdb, bleve and sqlite: a timestamp-ordered list of events with unique ids and positive timestamps (zero means "no bound"), and keyed tables.
- The mutex of the limiter: takes are atomic. Its arithmetic is over reals, its tokens per interval are not negative, and a bucket is a record in the map, not an object of its own.
- Mirror content builders, dataset loaders, gates, publishing, the command line, the relay's network side and the web site.
