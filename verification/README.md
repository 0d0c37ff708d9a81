# Union communications: a verified model

UnionOps is a browser-first communications toolkit for union locals, with a small hosted side. This project models
the parts of it that hold state or transform data, and proves what they promise.

- `BrandKitPatches.dfy`, `BrandStore.dfy`: the Brand Kit store. Edits, imports and resets may arrive while any number
  of asynchronous hydrations are in flight; they are queued, replayed onto the loaded kit, and saved through a
  debounce timer, immediate saves and a page-hide flush.
- `RegistryImport.dfy`: the one-time import of the document registry, as any number of interleaving importers that may
  fail or crash at any await, and as the two loops of one importer.
- `UndoRedo.dfy`: the windowed undo/redo hook and the unbounded history it stands for.
- `DebouncedStore.dfy`: the website draft and public roster stores.
- `LogoMode.dfy`: the logo picker's printer (mode to kit patch) and parser (kit to mode).
- `Proxy.dfy`, `ServiceWorker.dfy`: request routing, and the offline cache.
- `Mojibake.dfy`, `CsvRepair.dfy`: the UTF-8 codec with the detection and repair of misread texts, and the whole CSV
  repair chain around it, for any NFKC function.
- `DbContract.dfy` (with `Sorting.dfy`), `WebsiteDraft.dfy`, `CanvasLayout.dfy`, `PdfPages.dfy`: contract generation,
  draft migration, layout measurement, PDF pagination.
- `JsValues.dfy`: optional values, object properties, and the JavaScript string helpers used throughout.

Where the source changes state in place the model is a class (or a method with loops) whose methods are proved equal to
a step function; the theorems are about that function and its runs.

## What does not hold

Each of these is proved from the code as it is, with the exact condition under which the code does meet the property.

- Two edits queued before hydration erase the stored canvas, because queueing adds the canvas key
  (`QueuedEditsClearStoredCanvas`, exact in `QueueCanvasExact` and `QueueAllCanvasExact`).
- A trusted host preset that arrives after an import or reset is saved over it while memory keeps the import
  (`ClobberedImport`); for a page that hydrates once there is no other way for memory and storage to part
  (`SingleHydrationAgreesExact`).
- Hydrating a hydrated store again, which the grievance pages do, makes memory forget an edit that storage keeps when
  the edit was still waiting to be saved as the hydration began, or was made while it ran (`RehydrationForgetsEdit`,
  with one hydration in flight at a time; exact in `OneAtATimeAgreesExact`). A hydration begun with nothing pending,
  and under which nothing is written, keeps agreement (`UndisturbedRehydrationsAgree`).
- After a first visit whose host lookup failed, a second hydration can await the host again; a trusted host preset that
  then arrives erases an edit saved meanwhile from memory and storage alike (`LaterPresetLosesEdit`; when an edit
  survives is exact in `EditSurvivesExact`).
- With two hydrations in flight, the one that ends last also forgets an edit that the first replayed and saved
  (`OverlappingHydrationForgetsEdit`; `StepAgreesExact` covers any number in flight).
- The draft and roster stores leave their timer running under a replacement or reset, so the timer later stores the
  stale edit (`StaleEditPersists`).
- In both of them an edit, replacement or import made while the stored value is loading is forgotten by memory and kept
  by storage (`HydrationForgetsEdit`, `HydrationForgetsReplacement`; exact in `DebouncedStore.OneAtATimeAgreesExact`).
- An importer whose commit took effect but was not acknowledged takes the blob back, and the committed version refers to
  a missing blob (`LostAckLosesBlob`; exact in `BlobsConserved`).
- CSV repair is not idempotent, does not leave every clean file alone, and does not always clean: NFKC runs after the
  replacements and brings replaced characters back (`TriplePrimeComesBack`), takes ligatures apart
  (`LigatureIsTakenApart`), and composes letters that a second run takes for damage (`ComposedLetterIsDecoded`). Exact in
  `RepairCleansExact`, `RepairIdleExact`, `RepairAgainExact` and, for the files, `SecondRunExact`.
- The byte order mark strip matters to the chain: without it a text is not repaired (`BomStripMatters`, exact in
  `BomStripExact`).
- Misread texts do not all come back (exact in `MisreadRoundTripExact`): quotes and dashes misread as Windows-1252 are
  hinted at and never repaired (`WindowsQuotesStay`), the ellipsis becomes another character
  (`MisreadEllipsisChanges`), and genuine characters beyond Latin-1 in a text that is repaired are damaged
  (`RepairDamagesOthers`, exact in `RepairIsLosslessExact`).
- Uploading a picture that is a preset asset turns the choice "custom" into a union mode (`UploadedLockupIsNotCustom`).
- Undo at the floor of the history window does nothing where an unbounded history steps back (`FloorUndoDiffers`).

## Model

| member | source | states |
|---|---|---|
| BrandKitPatches.QueueIsComposition | src/store/brand-store.ts:133-183 | applying a queued pair of patches once equals applying them in turn, on every field but the canvas, with `local` merged deeply and `undefined` links keeping what was there |
| BrandKitPatches.QueueCanvasExact | src/store/brand-store.ts:147-181 | the canvas agrees too if and only if the pair does not leave a kit's canvas unmentioned and the second canvas covers the keys of the first |
| BrandKitPatches.QueueKeepsImmediacy | src/store/brand-store.ts:68-86 | a queued pair needs an immediate save exactly when one of its members does |
| BrandKitPatches.QueueAllIsComposition | src/store/brand-store.ts:157-183 | the same composition law for any non-empty run of patches |
| BrandKitPatches.QueueAllCanvasExact | src/store/brand-store.ts:162-181 | for any run of patches, the queued canvas equals the applied one if and only if the last canvas set covers every token queued since canvas was last cleared, or, with no canvas mentioned by two or more patches, the kit has none |
| BrandKitPatches.QueueKeepsLastWrites | src/store/brand-store.ts:133-183 | after one application of the whole queue each non-canvas field holds its last written value, else the kit's |
| BrandKitPatches.QueueMerges | src/store/brand-store.ts:133-183 | one application of a queue leaves every field with its last write, a new time stamp, and the canvas tokens carried since it was last cleared, each with its last value |
| BrandStore.ReachableSound | src/store/brand-store.ts:60-131 | in every reachable state at most one save callback is armed and the timer variable names it, a timer is armed exactly when a save is pending, and nothing is queued once hydrated |
| BrandStore.EditIsWritten | src/store/brand-store.ts:133-155 | an edit or theme is on the kit in memory at once, before hydration too: what the helpers get is the kit with every field of the patch written and all others kept, and memberships are aligned when a profile field got a real value |
| BrandStore.PresetIsWritten | src/store/brand-store.ts:220-242 | a trusted preset writes its fields for the local number of the kit in memory; any other id changes nothing |
| BrandStore.ImmediateExact | src/store/brand-store.ts:68-86 | an edit of a hydrated store is stored at once if and only if it names a logo field, the treatment or the preset; otherwise it waits and nothing is written |
| BrandStore.TimerExact | src/store/brand-store.ts:79-117 | the armed timer stores what is pending; one that was cleared does nothing |
| BrandStore.ImportIsStored | src/store/brand-store.ts:297-311 | an import is shown and stored as it came, but for its time stamp, and normalised |
| BrandStore.ResetIsStored | src/store/brand-store.ts:261-295 | a reset shows and stores the defaults with preset, sector, pack, profiles, local number, sub-text and unit code replaced, and nothing else |
| BrandStore.HostKitExact | src/store/brand-store.ts:351-419 | a host answer writes its three colours and the local identity it gives; then the trusted preset it names, or after an exception the deployment's, is written for the resulting local number, and only that is saved early |
| BrandStore.HydrationReads | src/store/brand-store.ts:339-351 | a hydration works on what was stored when it began, or, when that was nothing, on memory as it is then |
| BrandStore.StepAgreesExact | src/store/brand-store.ts:205-448 | a step keeps memory and storage in agreement if and only if it is not one of three ends of a hydration, each given by its guard |
| BrandStore.RunAgreesExact | src/store/brand-store.ts:205-448 | over every run of edits, presets, themes, imports, resets, timers, page hides and overlapping hydrations, agreement holds throughout if and only if no such step occurs |
| BrandStore.OneAtATimeAgreesExact | src/store/brand-store.ts:339-448 | with at most one hydration in flight, from any storage and however often the store is hydrated again, memory and storage agree throughout if and only if no trusted host preset is saved over an import or reset, and no hydration that began with a save pending, or that the user wrote under, brings back another kit than the one in memory |
| BrandStore.UndisturbedRehydrationsAgree | src/store/brand-store.ts:339-448 | when every further hydration begins with no save pending and the user writes nothing under it, agreement holds throughout if and only if no trusted host preset is saved over an import or reset |
| BrandStore.SingleHydrationAgreesExact | src/store/brand-store.ts:339-448 | the special case of a page that starts at most one hydration: the only such step is a trusted host preset saved over an import or reset with no later edit queued |
| BrandStore.RehydrationForgetsEdit | src/store/brand-store.ts:339-448 | with never more than one hydration in flight, an edit waiting to be saved when the store is hydrated again ends up stored while memory shows the kit from before it |
| BrandStore.UserActionsHeal | src/store/brand-store.ts:205-311 | from any hydrated state, even a disagreeing one, the next edit, preset, theme, import or reset restores agreement |
| BrandStore.NothingLeftUnsaved | src/store/brand-store.ts:79-131 | page hide, the debounce timer, and edits of logo, treatment or preset leave no save pending and the kit in memory stored |
| BrandStore.BurstIsSavedOnce | src/store/brand-store.ts:105-117 | any burst of edits and themes that may wait writes nothing and leaves one callback, which stores the kit as the last edit left it |
| BrandStore.ResetForgetsIdentity | src/store/brand-store.ts:261-288 | a factory reset gives the same state whatever identity the host baked into the defaults |
| BrandStore.ClobberedImport | src/store/brand-store.ts:378-427 | the excluded run: whatever is imported during the host lookup, a trusted host preset ends up stored while memory shows the import, so the two disagree unless they are the same kit |
| BrandStore.NoEditLost | src/store/brand-store.ts:205-311 | after any run before the first hydration completes, the completing step starts from the last import or reset, else the loaded or host kit, gives the helpers that kit with the last write of every later edit on it, and saves the result at once; canvas exactly under the queue's condition |
| BrandStore.QueuedEditsClearStoredCanvas | src/store/brand-store.ts:157-183 | two queued edits that never mention canvas make hydration save what the helpers make of a kit with both edits and no canvas |
| BrandStore.OverlappingHydrationForgetsEdit | src/store/brand-store.ts:339-448 | with two hydrations in flight, memory ends with the kit both had read while the edit is stored |
| BrandStore.EditSurvivesExact | src/store/brand-store.ts:205-448 | from any storage, after any run with at most one hydration in flight: what the user makes of the kit on a hydrated store stays in memory and in storage (or pending) until the user writes again, if and only if no hydration that it overtook, or that began with a save pending, ends with another kit, saved or not |
| BrandStore.UndisturbedEditSurvives | src/store/brand-store.ts:339-448 | an edit made with no hydration in flight survives all later ones that begin with no save pending |
| BrandStore.LaterPresetLosesEdit | src/store/brand-store.ts:351-448 | the run in which a second hydration of a first visit ends with a trusted host preset: memory and storage both end with the host kit, without the edit that had been saved |
| BrandStore.EarlyEditsAreNotSaved | src/store/brand-store.ts:205-210 | over any run without imports and resets in which no hydration completes, whatever storage and host answer, storage keeps what it held and no callback is armed |
| BrandStore.Store.SetBrandKit | src/store/brand-store.ts:205-218 | an edit is queued and shown before hydration, and shown and scheduled or saved at once after it |
| BrandStore.Store.ApplyUnionPresetId | src/store/brand-store.ts:220-242 | refuses untrusted presets, else edits with the preset's fields for the current local number and saves at once |
| BrandStore.Store.ResetBrandKit | src/store/brand-store.ts:261-295 | drops queue, pending save and timer, shows and saves the factory kit |
| BrandStore.Store.ImportBrandKit | src/store/brand-store.ts:297-311 | drops queue, pending save and timer, shows and saves the import |
| BrandStore.Store.FlushPendingSave | src/store/brand-store.ts:88-103 | disarms the timer and stores the pending kit, if any |
| BrandStore.Store.ScheduleSave | src/store/brand-store.ts:105-117 | replaces any armed timer by one for the new kit, or stores it at once |
| BrandStore.Store.OnHostAnswer | src/store/brand-store.ts:351-448 | applies the host's colours and preset, saves a trusted preset, then replays replacement and queue |
| BrandStore.Store.EndHydration | src/store/brand-store.ts:421-448 | replays the replacement and then the queue, saves if anything was queued, and empties both |
| RegistryImport.ImportersKeepRows | scripts/import-public-documents.ts:63-123 | however importers interleave, fail or crash, with or without the slug index: existing rows never change, each slug has at most one document, each new document is an item's row with exactly its version 1, which has a stored file exactly when the item has one |
| RegistryImport.NewRowsExact | scripts/import-public-documents.ts:68-121 | over every run each new document has, field by field, the rows of an item: entries named privacy, security or accessibility are host-wide policy drafts without a published version, every other entry is published as version 1, as a link exactly when it has an external URL, and seeds are policy drafts |
| RegistryImport.PoliciesStayDrafts | scripts/import-public-documents.ts:72-104 | over every run a new document is published as version 1 exactly when the stored content is no policy, and nothing host-wide goes live |
| RegistryImport.SlugIndexIsRedundant | scripts/import-public-documents.ts:58-121 | every run of any importers goes the same with and without the unique slug index |
| RegistryImport.CanInsertExact | src/lib/db/schema/public-documents.ts:36-60 | the transaction is admitted exactly when neither key is taken, the document has no first version, and, where indexed, no document has the slug |
| RegistryImport.BlobsConserved | scripts/import-public-documents.ts:83-110 | no earlier blob is deleted; each newly stored blob is in exactly one place (settled in one new version, held by one importer, or left behind by a crash or failed delete) and outside the first is referenced exactly when its commit took effect unacknowledged; a new version's blob is missing if and only if that happened and the importer then deleted it |
| RegistryImport.AcknowledgedVersionsKeepBlobs | scripts/import-public-documents.ts:83-110 | when every commit that takes effect is acknowledged, every new version's blob is stored |
| RegistryImport.LostAckLosesBlob | scripts/import-public-documents.ts:101-109 | for any job that begins with a new file: a commit that takes effect without acknowledgement, then the compensating delete, leave a version whose blob is gone |
| RegistryImport.NoOrphans | scripts/import-public-documents.ts:95-110 | without crashes and failed deletes, once all importers have stopped every new blob belongs to exactly one new version |
| RegistryImport.MachineRefinesLoop | scripts/import-public-documents.ts:65-111 | one importer left alone does in the interleaved machine what one turn of the loop does, under every fault |
| RegistryImport.MachineRefinesImport | scripts/import-public-documents.ts:58-123 | a whole import: one importer started in any world where its keys are unused leaves the database and storage that the loops leave, under any faults, and stops exactly when they throw |
| RegistryImport.FaultFreeImportExact | scripts/import-public-documents.ts:63-125 | a fault-free import completes with a document for every slug if and only if no missing slug has an identifier taken, else it throws |
| RegistryImport.RerunExact | scripts/import-public-documents.ts:63-123 | after any run of interleaved, failing, crashing importers a fault-free rerun completes with a document for every slug if and only if no missing slug had an identifier taken before the first of them started, else it throws |
| RegistryImport.SecondImportIsIdle | scripts/import-public-documents.ts:66-67 | once every slug has its document an import changes and imports nothing, and skips each registry entry |
| RegistryImport.CountersAreTrue | scripts/import-public-documents.ts:63-124 | under any faults as many documents were added as imports and drafts are counted, and one more exactly when the import threw at a transaction that had taken effect; an import that did not throw imported or skipped every registry entry |
| RegistryImport.IdsDiffer | scripts/import-public-documents.ts:70-71 | document ids tell slugs, and registry entries from drafts, apart; version ids tell documents apart |
| RegistryImport.ImportScript.Transact | scripts/import-public-documents.ts:102-105 | both rows are inserted or neither, and an exception means neither unless the commit landed unacknowledged |
| RegistryImport.ImportScript.ImportEntry | scripts/import-public-documents.ts:65-111 | one turn of the catalogue loop, including the compensating delete, equals the specification under every fault |
| RegistryImport.ImportScript.ImportAll | scripts/import-public-documents.ts:58-125 | the two loops leave the database, storage and counters that folding over the items leaves |
| UndoRedo.RunStaysBounded | src/hooks/use-undo-redo.ts:16-52 | for a window of at least one, every reachable state has 1 to max entries and a valid index, so the fallbacks are dead |
| UndoRedo.SetStateExact | src/hooks/use-undo-redo.ts:23-38 | an update shows its result with nothing to redo; before it come the states up to the one it was applied to, the latest of them when the window is short |
| UndoRedo.UndoOfUpdateExact | src/hooks/use-undo-redo.ts:23-45 | undoing an update shows the state it was applied to, unless the window holds a single state |
| UndoRedo.MovesExact | src/hooks/use-undo-redo.ts:40-59 | undo and redo show the neighbouring entry and keep all entries; a reset leaves its argument alone |
| UndoRedo.RunIsStacks | src/hooks/use-undo-redo.ts:23-59 | the unbounded history is the textbook undo of two stacks, over every run |
| UndoRedo.StepSimulates | src/hooks/use-undo-redo.ts:23-59 | every operation keeps the window a suffix of the unbounded history at the same entry, except undo at the window's floor, after which no offset makes it one |
| UndoRedo.HookSimulates | src/hooks/use-undo-redo.ts:23-59 | a run from the start that never undoes at the floor shows what the unbounded history and the two stacks show, functional updates, redo and reset included |
| UndoRedo.FloorUndoDiffers | src/hooks/use-undo-redo.ts:40-45 | at the floor the hook stays put while the unbounded history returns to a dropped entry |
| UndoRedo.FloorIsReached | src/hooks/use-undo-redo.ts:23-45 | that state is reached from the start: by any max or more updates followed by max - 1 undos |
| UndoRedo.UndosThenRedosExact | src/hooks/use-undo-redo.ts:40-52 | k undos then k redos restore the state if and only if k undos were available or there was nothing to redo |
| UndoRedo.UndosAfterReset | src/hooks/use-undo-redo.ts:23-59 | a reset and n updates leave exactly min(n, max - 1) undos and no redo |
| UndoRedo.UndoRedoHook.SetState | src/hooks/use-undo-redo.ts:23-38 | the update drops redoable entries, appends, and keeps the window |
| UndoRedo.UndoRedoHook.Buttons | src/hooks/use-undo-redo.ts:54-55 | the undo and redo flags say exactly whether the operation would move |
| DebouncedStore.BurstIsSavedOnce | src/store/website-draft-store.ts:22-41 | any burst of edits, hydrated or not, shows each applied to the one before, writes nothing, and leaves one timer that stores what the last left |
| DebouncedStore.ReplaceAndLoadExact | src/store/public-roster-store.ts:41-63 | a replacement is shown and stored; a first load shows what was stored, or else the empty value |
| DebouncedStore.StepAgreesExact | src/store/website-draft-store.ts:20-86 | a step keeps memory and storage in agreement if and only if it neither replaces a differing value under a pending timer nor ends a hydration with a value other than the one that the timer, or else storage, holds |
| DebouncedStore.RunAgreesExact | src/store/public-roster-store.ts:21-63 | over every run, overlapping hydrations included, agreement holds throughout if and only if no such step occurs |
| DebouncedStore.OneAtATimeAgreesExact | src/store/website-draft-store.ts:20-86 | from any storage, with at most one hydration in flight, agreement holds throughout if and only if no replacement is made under a timer that saves something else and no hydration ends over what an edit or replacement wrote under it |
| DebouncedStore.PatientPagesAgree | src/store/public-roster-store.ts:21-63 | a page that writes nothing before hydration has ended, and replaces nothing under a pending timer, keeps memory and storage in agreement over every run |
| DebouncedStore.CarefulRunsAgree | src/store/website-draft-store.ts:34-76 | without replacements under a pending timer and with no hydration left to end, memory and storage agree in every state |
| DebouncedStore.StaleEditPersists | src/store/website-draft-store.ts:22-76 | from any hydrated state: edit, replace or reset, timer leaves the stale edit stored |
| DebouncedStore.HydrationForgetsEdit | src/store/website-draft-store.ts:22-86 | an edit made while the stored value loads ends up stored by its timer while memory shows the value that was loaded |
| DebouncedStore.HydrationForgetsReplacement | src/store/public-roster-store.ts:31-63 | a replacement or import made while the stored value loads stays stored while memory shows the value that was loaded |
| DebouncedStore.Store.ScheduleSave | src/store/website-draft-store.ts:22-28 | the previous callback is disarmed and one capturing the new value armed |
| DebouncedStore.Store.Hydrate | src/store/public-roster-store.ts:56-63 | a hydrated store does not read storage again |
| LogoMode.OfferedExact | src/components/brand/LogoSettings.tsx:209-332 | which options are offered, read off the preset's assets and the identity pack |
| LogoMode.ChoiceWrites | src/components/brand/LogoSettings.tsx:112-157 | choosing an option leaves exactly its source in the kit: the preset's trimmed lockup or mark, the platform mark, the trimmed upload worth keeping, or none with the variant |
| LogoMode.SourceExact | src/components/brand/LogoSettings.tsx:58-76 | a source in the kit is shown as platform, lockup, mark (on light or dark) or custom, by comparison with the preset's trimmed assets |
| LogoMode.PlatformSrcExact | src/lib/constants/unionPresets.ts:79-88 | a source is the platform's when, trimmed, it is one of four assets |
| LogoMode.SecondStageIsRedundant | src/components/brand/LogoSettings.tsx:36-110 | the picker's parser yields what its first stage yields, for every kit |
| LogoMode.ChoiceRoundTripExact | src/components/brand/LogoSettings.tsx:36-163 | for every kit and every option offered, merging its patch and reading back returns it, if and only if: for the union mark, it differs from the lockup; for custom, the kept upload is no preset asset |
| LogoMode.UploadedLockupIsNotCustom | src/components/brand/LogoSettings.tsx:58-74 | choosing custom with the union lockup as upload selects the union lockup |
| LogoMode.SelectedModeCases | src/components/brand/LogoSettings.tsx:78-110 | the two-stage parser equals one case analysis |
| LogoMode.ReselectingIsStable | src/components/brand/LogoSettings.tsx:78-163 | for any kit, choosing again what the picker shows changes nothing, except a union mark that is also the lockup |
| LogoMode.NoLogoFallsBackToPlatform | src/components/brand/LogoSettings.tsx:158-162 | choosing none leaves the platform mark and a non-empty monogram |
| LogoMode.NoLogoWrites | src/components/brand/LogoSettings.tsx:158-162 | choosing none stores the platform mark and the trimmed monogram, or UO when it is blank |
| LogoMode.CoerceExact | src/lib/brand/identity-packs.ts:801-814 | a variant that the pack offers is kept; any other becomes the first one it offers, or else the lockup |
| LogoMode.CoerceIdempotent | src/lib/brand/identity-packs.ts:801-814 | coercion lands on a variant that it leaves alone |
| Proxy.RedirectsTerminate | src/proxy.ts:55-116 | from every path and session, at most two of the proxy's redirects are followed |
| Proxy.RedirectLands | src/proxy.ts:50-112 | a redirect target is shown, refused, or sent on once to the acceptance page, which is shown to everyone |
| Proxy.SignedOutExact | src/proxy.ts:55-115 | a signed-out visitor is sent to the login page, in the path's locale, if and only if the path includes /portal, or includes /app and none of the six public parts; image and lab routes and the API pass |
| Proxy.AcceptanceGateExact | src/proxy.ts:55-81 | a member whose acceptances are outstanding or unknown is stopped if and only if the path behind its locale includes /app or /portal or begins with /api/ and is not exempt; everything else is decided as if there were none |
| Proxy.SignedInExact | src/proxy.ts:55-115 | a signed-in visitor who is not stopped is sent home if and only if the path includes the login or the magic sign-in part |
| Proxy.AllowlistExact | src/proxy.ts:14-22 | exempt are ten places with all below them, and all below twelve more, by name |
| Proxy.LocaleExact | src/proxy.ts:50-53 | the locale is fr for /fr and all below it, and en otherwise |
| Proxy.GuardedPagesLeadToTheirGate | src/proxy.ts:63-112 | signed-out visitors of members' pages end on the login page; members with outstanding acceptances, on gated pages, on the acceptance page |
| Proxy.ShownPagesAreAllowed | src/proxy.ts:63-115 | the guards: a page shown at the end of the redirects has none of the traits that are refused to the session |
| Proxy.ApiIsNeverRedirected | src/proxy.ts:59-81 | API requests are never redirected nor rendered as pages |
| Proxy.AllowlistClosed | src/proxy.ts:14-22 | the allowlist is closed under appending path segments |
| JsValues.IncludesAt | src/proxy.ts:64-64 | a path includes a part exactly when the part occurs in it at some index |
| JsValues.TrimExact | src/lib/constants/unionPresets.ts:97-100 | trimming cuts white space off both ends, and all of it |
| JsValues.IsSpaceExact | src/lib/constants/unionPresets.ts:97-100 | what counts as white space, by code point |
| ServiceWorker.RunStaysTidy | public/sw.js:10-107 | in every reachable state the worker's cache holds only precached URLs and the locale marker |
| ServiceWorker.InstallStores | public/sw.js:63-72 | a successful install adds both shells, the manifest and the image, each under its own URL, and keeps the rest |
| ServiceWorker.AnswerExact | public/sw.js:84-107 | a network answer is passed on whatever its status; without one an error is returned exactly when the shell is not cached |
| ServiceWorker.PutsAreOrdered | public/sw.js:35-47 | a successful localised navigation starts a put behind those in flight, and the oldest settles first and is then remembered |
| ServiceWorker.FailuresStoreNothing | public/sw.js:35-72 | failed puts, failed installs and offline navigations leave the stored entries alone |
| ServiceWorker.LocaleFromPathExact | public/sw.js:15-18 | only a first non-empty piece of exactly en or fr is a locale |
| ServiceWorker.NoStaleCaches | public/sw.js:74-82 | after an activation no other cache exists |
| ServiceWorker.RemembersLatest | public/sw.js:35-47 | once the started puts have completed, the remembered locale is that of the latest successful localised navigation |
| ServiceWorker.OfflineShellIsServed | public/sw.js:49-107 | after an install every failed navigation is answered with the shell of its offline locale, whether marker puts are pending, fail or never start |
| ServiceWorker.OfflineAnswer | public/sw.js:49-107 | that shell is of the path's own locale, whatever the puts do; else, once the puts have completed without failure, of the latest successful localised navigation, else English |
| ServiceWorker.ShellPathHasItsLocale | public/sw.js:15-22 | the shell's path has the locale it is the shell of |
| ServiceWorker.Worker.OnActivate | public/sw.js:74-82 | deletes every cache but the current one, and nothing else |
| ServiceWorker.Worker.OnFetch | public/sw.js:84-107 | answers navigations only; a successful localised one starts a marker put, a failed one gets the offline answer |
| DbContract.ContractIsComplete | scripts/generate-db-contract.ts:41-84 | on success each exported table has an entry with its name and all its columns, sorted by name, and there is no other entry |
| DbContract.FailureExact | scripts/generate-db-contract.ts:43-69 | for tables with distinct column names: generation throws, saying so, at exactly the first export that is in another schema or whose columns are not those of an earlier export of its name |
| DbContract.ConflictComesFirst | scripts/generate-db-contract.ts:43-69 | a conflict is thrown even if a later table is in another schema |
| DbContract.ConflictExact | scripts/generate-db-contract.ts:48-66 | two definitions of one name conflict if and only if they do not have the same columns, in whatever order |
| DbContract.GenerateExact | scripts/generate-db-contract.ts:41-84 | generation succeeds if and only if no schema is unsupported and no table name has two definitions after column sorting; then there is one entry per name, strictly sorted |
| DbContract.GenerateIgnoresEnumeration | scripts/generate-db-contract.ts:43-69 | success and contract do not depend on the order or repetition of the exports |
| DbContract.ColumnOrderIsIrrelevant | scripts/generate-db-contract.ts:50-61 | definitions listing the same distinctly named columns in different orders do not conflict |
| DbContract.GenerateDbContract | scripts/generate-db-contract.ts:41-84 | the loop over a map computes that contract or throws that error |
| Sorting.SortIgnoresEnumeration | scripts/generate-db-contract.ts:56-56 | sorting distinguishable elements does not depend on their enumeration |
| WebsiteDraft.MigrationReads | src/types/website-draft.ts:46-124 | texts and flags of any stored object are kept when they have the right type and get their default otherwise |
| WebsiteDraft.MigrationReadsOthers | src/types/website-draft.ts:46-124 | the same of layout, locale, Facebook address, officers and the truthiness of their override |
| WebsiteDraft.OthersMigrateToDefaults | src/types/website-draft.ts:80-82 | anything that is no object migrates to the defaults |
| WebsiteDraft.ContributionExact | src/types/website-draft.ts:100-110 | exactly the stored objects whose title is a text that is not blank become events |
| WebsiteDraft.EventReads | src/types/website-draft.ts:103-109 | an event keeps its texts, and one that is missing or mistyped becomes empty |
| WebsiteDraft.MigrationIsCanonical | src/types/website-draft.ts:80-124 | from any JSON-like value the migration makes a version 2 draft with a known layout and locale and only titled events |
| WebsiteDraft.StoredDraftExact | src/types/website-draft.ts:80-124 | a stored draft keeps every field through migration if and only if it is already canonical |
| WebsiteDraft.MigrationIsIdempotent | src/types/website-draft.ts:80-124 | migrating twice is migrating once, up to the time stamp |
| WebsiteDraft.EventsKeepOrder | src/types/website-draft.ts:100-110 | migrated events are exactly the stored objects with a title that is not blank, in their stored order |
| Mojibake.Utf8Exact | src/lib/snippets/text-normalize.ts:24-24 | decoding and encoding UTF-8 are inverse: a byte sequence decodes to a text if and only if it is that text's encoding |
| Mojibake.LooksExact | src/lib/snippets/text-normalize.ts:6-12 | a text looks damaged if and only if somewhere U+00C3 is followed by U+0080..U+00BF, U+00C2 by U+00A0..U+00FF, or U+00E2 by U+20AC |
| Mojibake.RepairExact | src/lib/snippets/text-normalize.ts:18-32 | a text is repaired to another if and only if it looks damaged, the other does not, is not empty and has no U+FFFD, and the other's UTF-8 form, with or without a byte order mark, is the low bytes of the text |
| Mojibake.RepairTwice | src/lib/snippets/text-normalize.ts:18-32 | repairing twice is repairing once |
| Mojibake.MisreadRoundTripExact | src/lib/snippets/text-normalize.ts:14-32 | a text whose UTF-8 form was read as Latin-1 is restored if and only if it is ASCII, or it has a character in U+00A0..U+00FF, does not itself look damaged, has no U+FFFD and no leading byte order mark |
| Mojibake.RepairIsLosslessExact | src/lib/snippets/text-normalize.ts:21-28 | a repair can be undone by misreading again if and only if the damaged text is Latin-1 throughout |
| Mojibake.WindowsQuotesStay | src/lib/snippets/text-normalize.ts:6-25 | any text with U+00E2 U+20AC before a character whose low byte continues no sequence, which is so for misread quotes and dashes, is left as it is |
| Mojibake.MisreadEllipsisChanges | src/lib/snippets/text-normalize.ts:6-28 | a misread ellipsis becomes U+2B26 |
| Mojibake.RepairDamagesOthers | src/lib/snippets/text-normalize.ts:21-28 | a genuine apostrophe next to repaired damage becomes a control character |
| Mojibake.RepairDamagesEmoji | src/lib/snippets/text-normalize.ts:21-28 | of an emoji next to repaired damage one byte of its first surrogate is left |
| CsvRepair.PunctuationIsOnePass | scripts/normalize-snippet-csvs.ts:42-48 | the chain of six replacements is one pass: no stage produces what a later one replaces |
| CsvRepair.ChainEqualsTable | src/lib/snippets/text-normalize.ts:38-70 | the six replacements of the CSV script equal, for every text, the table that single snippet fields are normalised with |
| CsvRepair.NewlinesPreserveLineBreaks | scripts/normalize-snippet-csvs.ts:50-51 | the two newline replacements equal one left-to-right scan, preserve the number of line breaks, and leave no carriage return |
| CsvRepair.RepairShows | scripts/normalize-snippet-csvs.ts:41-48 | every change that mojibake repair makes to a text is still there after the replacements |
| CsvRepair.BomStripExact | scripts/normalize-snippet-csvs.ts:41-48 | stripping a byte order mark changes what NFKC is given if and only if there is one and mojibake repair changes the text behind it |
| CsvRepair.BomStripMatters | scripts/normalize-snippet-csvs.ts:40-53 | a file in which the strip decides whether a letter is repaired |
| CsvRepair.RepairEndsLines | scripts/normalize-snippet-csvs.ts:40-53 | the whole chain, whatever NFKC does: no carriage return, exactly one newline at the end, and a clean file if and only if no replaced character is left |
| CsvRepair.RepairCleansExact | scripts/normalize-snippet-csvs.ts:40-53 | the whole chain, given which characters NFKC maps to replaced ones: the output is clean if and only if the text, mojibake repaired, has none of those seven |
| CsvRepair.RepairIdleExact | scripts/normalize-snippet-csvs.ts:40-53 | the whole chain, where NFKC has nothing to do: a text is left alone if and only if it is clean and mojibake repair leaves it alone |
| CsvRepair.RepairAgainExact | scripts/normalize-snippet-csvs.ts:40-53 | the whole chain, where NFKC has nothing left to do: a second repair changes nothing if and only if the first left nothing to replace and nothing that decodes again |
| CsvRepair.SecondRunExact | scripts/normalize-snippet-csvs.ts:31-60 | the same for the bytes that the script writes over its source and reads on its next run |
| CsvRepair.TriplePrimeComesBack | scripts/normalize-snippet-csvs.ts:43-49 | U+2034 leaves three U+2032 in the output, which a second repair replaces |
| CsvRepair.LigatureIsTakenApart | scripts/normalize-snippet-csvs.ts:49-49 | a clean text with a ligature is changed |
| CsvRepair.ComposedLetterIsDecoded | scripts/normalize-snippet-csvs.ts:41-49 | a letter and a combining tilde before U+00A9 compose to what a second repair decodes to another letter |
| CsvRepair.BomStripIsRedundant | scripts/normalize-snippet-csvs.ts:41-53 | the part without mojibake repair and NFKC: there the strip would make no difference |
| CsvRepair.FlattenCleans | scripts/normalize-snippet-csvs.ts:41-53 | the part without mojibake repair and NFKC: the output has no carriage return and no replaced character and ends in exactly one newline |
| CsvRepair.FlattenIdleExact | scripts/normalize-snippet-csvs.ts:41-53 | the part without mojibake repair and NFKC: a text is left alone if and only if it already looks like that |
| CsvRepair.FlattenIdempotent | scripts/normalize-snippet-csvs.ts:41-53 | the part without mojibake repair and NFKC: repairing twice is repairing once |
| CanvasLayout.OverlapMeansSharedArea | e2e/helpers/canvas-layout.ts:295-303 | two rectangles overlap if and only if one larger than the threshold on both axes fits in both |
| CanvasLayout.ClippedOverlapIsOverlap | e2e/helpers/canvas-layout.ts:284-303 | whatever overlaps the clipped rectangle overlaps the whole one |
| CanvasLayout.ClipExact | e2e/helpers/canvas-layout.ts:284-294 | clipping is intersection, and there is no clip exactly when no rectangle of a pixel by a pixel fits in both |
| CanvasLayout.TypeHitsMetaExact | e2e/helpers/canvas-layout.ts:533-543 | a pair counts exactly when both boxes measure two pixels or more each way and more than one pixel each way lies in both |
| CanvasLayout.UrlHitsPlateExact | e2e/helpers/canvas-layout.ts:318-334 | a pair counts exactly when more than one pixel each way lies in the URL's box, in what it is clipped to, and in the plate |
| CanvasLayout.MeasureTypeMetaOverlap | e2e/helpers/canvas-layout.ts:533-545 | the nested loops count exactly the pairs of big enough boxes that overlap by more than a pixel on both axes |
| CanvasLayout.MeasureUrlLayout | e2e/helpers/canvas-layout.ts:305-343 | counts exactly the URL and plate pairs that overlap after clipping, and the truncated URLs; the minimum font is the true minimum, 0 without URLs |
| PdfPages.ExportLines | src/components/bumping/BumpingCaseDetail.tsx:213-224 | line i is drawn once, cut to 90 characters, on page i/36 at 20 + 7*(i mod 36); the page count is 1, or 1 + (n-1)/36 |
| PdfPages.PlacesAreDistinctAndOnThePage | src/components/bumping/BumpingCaseDetail.tsx:217-224 | every line lies within 20..270, later lines are lower or on later pages, and the last page holds the last line |
| PdfPages.PlacesInNumbers | src/components/bumping/BumpingCaseDetail.tsx:215-223 | 36 lines a page, 7 apart from 20 down, each the first 90 characters of its line |

## Left out

- Normalisation of Brand Kits, profile syncing, membership alignment and preset fields: arbitrary functions in the store
  model, so its theorems hold for any; the field-by-field results are about the object handed to the normaliser.
- Brand Kit time stamps are values passed in; `lastSavedAt`, `hasStoredBrandKit`, `storageBlocked`, onboarding,
  publishing and switching between the local and API adapters are not modelled. Saves succeed and complete in order,
  and storage holds the kit last handed to the adapter.
- The local storage adapter normalises a kit on saving and on loading (src/lib/data/local-storage-adapter.ts:59-90); the
  model reads back what was handed over, so the results about hydrating again hold up to that normalisation.
- A kit's own `canvas`, `customLinks` and `membershipUrls` do not distinguish an absent key from `undefined`; patches do.
- Importers: reading, sanitising, validating and scanning a file are one step that succeeds or fails; a failed put
  stores nothing, a failed delete deletes nothing, and storage keys are never used twice. Payload texts, including the
  baseline policy content assembled from messages, are not modelled.
- Website and roster values are opaque: stamping and roster parsing are part of the update passed in.
- The identity pack resolved after a logo choice is taken to offer the same variants as before it.
- The proxy's own redirects only: locale routing by the library, query strings and the path matcher are not modelled.
- Cached response bodies are named by the URL they were fetched from; headers and the client claim are not modelled.
- Contract roles, policies and privileges are copied from constants. `localeCompare` is any total order on names.
- NFKC is any function in the CSV model; what Unicode says of it is a stated hypothesis of the lemmas that need it. The
  Windows-1252 fallback decoder is any function too. The lenient UTF-8 decoder is modelled as failing where it would
  put U+FFFD into its output, which the repair then discards. Trimming snippet fields line by line is left out.
- Layout numbers are real numbers; reading boxes from the document is an input.
- React rendering, translations, smoke scripts, SQL policies and framework configuration.
