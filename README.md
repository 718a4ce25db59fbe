# monokle core, modelled in Dafny

This project models the core of monokle, a desktop tool for browsing and editing Kubernetes manifests:

- **Kustomizations.** The kustomization composer links every Kustomization to the resources its `resources` and `bases` entries name. It marks the targets of its `patchesStrategicMerge` entries with a `Patch: ` prefix. It also answers which resources a kustomization reaches.
- **The `main` slice.** These reducers manage previews (kustomization, Helm and cluster), file and Helm-values selection, and the loading of a root folder.
- **The section-blueprint middleware.** It rebuilds the navigator's section and item instances after every action. It computes each section's visibility, visible descendants and tri-state check box, and it dispatches the new instances only when they differ from the stored ones.
- **The navigators of the initial state.** Kind handlers are grouped into navigators, sections and subsections. New sections are inserted in a fixed section order.
- **Resource transfer.** This is the step between the two sides of a comparison: deploying to a cluster or extracting to the local workspace.
- **File-pattern lists.** The scan excludes and includes can be edited: add, remove, replace.
- **The resource and reference records** that all of the above share.

## Layout

| file | module | models |
|---|---|---|
| `wrappers.dfy` | `Wrappers` | Option and Outcome. JavaScript records: a map plus its key iteration order, `indexOf` and `[...new Set(s)]`. |
| `paths.dfy` | `Paths` | A simplified `path.parse(p).dir`, `path.join`, `startsWith` and `toLowerCase`. |
| `k8s_resource.dfy` | `K8sResource` | Resources, references, ranges, and the preview and unsaved path markers. |
| `app_state.dfy` | `AppModel` | File entries, Helm records, and `getResourcesForPath`. |
| `kustomize.dfy` | `Kustomize` | `src/redux/services/kustomize.ts` |
| `main_slice.dfy` | `MainSlice` | The modelled reducers of `src/redux/reducers/main.ts`, on a class `AppState` that stands for the Immer draft, and `initialAppState`. |
| `navigator.dfy` | `Navigator` | Section, item and group instances, check boxes, and the blueprint fields that are consulted. |
| `section_visibility.dfy` | `SectionVisibility` | `computeSectionVisibility` |
| `section_blueprint.dfy` | `SectionBlueprint` | `pickPartialRecord`, `hasNavigatorInstanceStateChanged`, `computeSectionCheckable`, and the construction of item and section instances. |
| `blueprint_middleware.dfy` | `BlueprintMiddleware` | The scope scan, the scope cache, `processSectionBlueprints`, and the middleware's action filter. |
| `initial_state.dfy` | `InitialState` | The `navigators` fold of `src/redux/initialState.ts` |
| `transfer_resource.dfy` | `TransferResource` | `src/redux/services/compare/transferResource.ts` |
| `file_pattern_list.dfy` | `FilePatternList` | The pattern edits of `FilePatternList.tsx` |

### How each file is modelled

**Imperative code becomes methods.** The source mutates things in three places:

- Immer drafts in the reducers.
- Resource maps in the kustomization composer.
- Section instances in the middleware.

In each of these places the code becomes methods with loops, and each method is proved equal to a specification function. Properties are then proved about that function.

**Where the state lives.** The reducers act on a `class AppState` whose fields they modify. The composer and the middleware thread their maps through as values.

**Pure code becomes functions.** The pure parts are functions with lemmas: `pickPartialRecord`, `canTransfer`, `createResource` and the pattern edits.

**Iteration order.** JavaScript object iteration order matters to several operations. It is modelled by an explicit key list that enumerates the map's keys (`Wrappers.EnumeratesKeys`). Assigning a key keeps its place; a new key comes last (`Wrappers.Store`). JavaScript follows this order only for keys that are not array indices. The model assumes that no key is an array index (see Left out).

### Termination of `getKustomizationRefs`

`getKustomizationRefs` keeps no visited set (`src/redux/services/kustomize.ts:111-136`). It recurses into every Kustomization that an outgoing reference names, so it returns only when no cycle of such references is reachable from the queried kustomization.

- `Kustomize.KustomizationRefs` is the function the model proves things about. It requires a `Kustomize.KustomizationDag` ranking relative to the queried kustomization. The ranking covers a set of ids that holds the queried kustomization and is closed under outgoing references to Kustomizations, and the level decreases along each such reference. Cycles that the query cannot reach are allowed.
- `Kustomize.RefsWithin` models the recursion as written, with a depth bound. `RefsWithinAgrees` shows that it gives the same list whenever a ranking exists. `CycleNeverReturns` shows that it never finishes, at any depth, when a cycle is reachable. The reachable cycle is recorded under Findings.
- `Kustomize.RefsVisited` is the corrected query. It passes down the kustomizations whose calls are still running and does not enter one of them again. It returns on any resource map, exactly the resources reachable from the queried kustomization (`RefsVisitedMeaning`). Wherever a ranking exists, it returns the same list as `KustomizationRefs` and as the code as written (`RefsVisitedAgrees`, `CorrectedAgreesWithWritten`).

## Model

| member | source | states |
|---|---|---|
| Wrappers.Store | src/redux/initialState.ts:67-73 | Assigning a key of a record replaces the value of an existing key in its place and appends a new key to the iteration order. The record still enumerates its keys exactly once. |
| Wrappers.IndexOf | src/components/molecules/FilePatternList/FilePatternList.tsx:72 | `indexOf` returns the first position holding the value, or -1 exactly when the value is absent. |
| K8sResource.UnsavedPathIsNotPreview | src/redux/services/compare/transferResource.ts:129 | A path made of the unsaved marker followed by an id is never taken for a preview path. |
| AppModel.ResourcesForPathMembers | src/redux/services/kustomize.ts:39-40 | The resources found for a path are exactly the map's resources stored in that file, each listed once. |
| AppModel.ResourcesForPathSamePaths | src/redux/services/kustomize.ts:19 | Which resources belong to a file depends only on the map's keys and file paths, so adding references or renaming does not change it. |
| Kustomize.IsKustomizationResource | src/redux/services/kustomize.ts:29-31 | A resource is a kustomization exactly when it is present (not `undefined`) and its kind is Kustomization. |
| Kustomize.IsKustomizationFileMeaning | src/redux/services/kustomize.ts:29-44 | A file is a kustomization file exactly when its lower-cased name is `kustomization.yaml` and it holds exactly one resource, of kind Kustomization. |
| Kustomize.SoleResourceFound | src/redux/services/kustomize.ts:39-40 | When a path lists exactly one resource, that resource is the only one stored in the file. |
| Kustomize.SoleResourceListed | src/redux/services/kustomize.ts:39-40 | When a file holds exactly one resource, the path lists exactly that resource. |
| Kustomize.LinkOps | src/redux/services/kustomize.ts:19-22 | `linkParentKustomization` makes one link per resource of the file, in file order, each from the kustomization. |
| Kustomize.PatchedNameIdempotent | src/redux/services/kustomize.ts:96-98 | A patched name always starts with `Patch:`. Patching it again leaves it unchanged. |
| Kustomize.LinkShape | src/redux/services/kustomize.ts:21 | One link changes no key, id, path, kind or content of the resource map. |
| Kustomize.EntryOpsSameShape | src/redux/services/kustomize.ts:56-72 | The links an entry makes depend only on the map's keys, ids, paths, kinds and contents. |
| Kustomize.LinkSeqShape | src/redux/services/kustomize.ts:13-23 | Linking changes no key, id, path, kind or content of the resource map. |
| Kustomize.RenameSeqShape | src/redux/services/kustomize.ts:95-99 | Renaming patch targets changes no key, id, path, kind or content of the resource map. |
| Kustomize.LinkEffect | src/redux/services/kustomize.ts:21 | One link appends the outgoing reference to the source and the incoming reference to the target. No other resource changes. |
| Kustomize.LinkSeqEffect | src/redux/services/kustomize.ts:13-23 | A sequence of links only appends references. Each resource gains exactly the references the links address to it, in link order. |
| Kustomize.LinkSeqAppend | src/redux/services/kustomize.ts:88-90 | Processing the entries one after the other equals processing all their links at once. |
| Kustomize.RenameSeqEffect | src/redux/services/kustomize.ts:92-102 | Renaming changes only names. A listed resource gets the patched name once, however often it is listed, and the others keep theirs. |
| Kustomize.KustomizationChildrenMembers | src/redux/services/kustomize.ts:61-64 | The children considered in a folder entry are exactly the existing children that are kustomization files. |
| Kustomize.FilesTargetsMembers | src/redux/services/kustomize.ts:65-67 | The resources linked through a list of files are exactly the resources stored in those files. |
| Kustomize.EntryTargetsMeaning | src/redux/services/kustomize.ts:56-72 | An entry whose joined path is not in the file map links nothing. A file entry links to every resource of that file. A folder entry links exactly to the Kustomizations of its kustomization-file children. |
| Kustomize.KustomizationIdsMembers | src/redux/services/kustomize.ts:80-81 | Exactly the Kustomizations that have `resources`, `bases` or `patchesStrategicMerge` are processed, each once. |
| Kustomize.PatchTargetsMeaning | src/redux/services/kustomize.ts:92-102 | The resources renamed are exactly those stored in the existing patch files. A missing patch file contributes nothing. |
| Kustomize.IsKustomizationFileSameShape | src/redux/services/kustomize.ts:37-44 | Classifying a file does not depend on the references or names that earlier kustomizations changed. |
| Kustomize.EntryTargetsSameShape | src/redux/services/kustomize.ts:56-72 | What an entry links to does not depend on the references or names that earlier kustomizations changed. |
| Kustomize.ProcessAllShape | src/redux/services/kustomize.ts:79-105 | `processKustomizations` changes no key, id, path, kind or content of the resource map. |
| Kustomize.ProcessAllEffect | src/redux/services/kustomize.ts:79-105 | After `processKustomizations`, every resource has gained exactly the references of all the links made (resources entries before bases entries, kustomization by kustomization), and every patch target has been renamed once. |
| Kustomize.AddedRefsAreWellFormed | src/redux/services/kustomize.ts:13-23 | Every reference the composer adds names an existing target. Incoming ones carry no position. Only processed kustomizations gain outgoing references. |
| Kustomize.PatchesOnlyKeepRefs | src/redux/services/kustomize.ts:79-105 | When no kustomization lists resources or bases, no resource gains a reference and the map keeps its keys. |
| Kustomize.MultiplePatchesKeepsTwoRefs | src/redux/services/kustomize.test.ts:5-13 | A map whose only resource is a kustomization with two patch files and two references still has that one resource afterwards, with two references. |
| Kustomize.LinkParentKustomization | src/redux/services/kustomize.ts:13-23 | The loop links the kustomization to each resource of the file, as the link specification says. |
| Kustomize.ProcessKustomizationResource | src/redux/services/kustomize.ts:50-73 | One `resources`/`bases` entry makes exactly the links its entry specification names. |
| Kustomize.MarkPatched | src/redux/services/kustomize.ts:95-99 | The rename loop equals the rename specification. |
| Kustomize.ProcessOneKustomization | src/redux/services/kustomize.ts:83-103 | The work for one kustomization: its resources and bases entries, then its patches. |
| Kustomize.ApplyPatches | src/redux/services/kustomize.ts:92-103 | The patch loop renames exactly the patch targets and leaves the map unchanged for a missing file. |
| Kustomize.ProcessEntries | src/redux/services/kustomize.ts:83-91 | The `resources` and `bases` loop for one kustomization makes exactly the links its entries name, in order. |
| Kustomize.ProcessEach | src/redux/services/kustomize.ts:82-104 | The loop over the kustomizations processes each of them in turn, as the specification says. |
| Kustomize.ProcessAllKeys | src/redux/services/kustomize.ts:79-105 | `processKustomizations` keeps the keys of the resource map. |
| Kustomize.ProcessKustomizations | src/redux/services/kustomize.ts:79-105 | The method equals the specification of `processKustomizations` over the processed kustomizations, in map order. |
| Kustomize.GetKustomizationRefs | src/redux/services/kustomize.ts:111-136 | The method's list equals the recursive specification, in order. |
| Kustomize.ReachedViaMeaning | src/redux/services/kustomize.ts:119-132 | A prefix of the references reaches a resource exactly when one of its followed references reaches it. |
| Kustomize.KustomizationRefsMeaning | src/redux/services/kustomize.ts:111-136 | A resource is returned exactly when a followed reference (outgoing always, incoming only with selectParent) names it and it exists. It is also returned when the resource is reached, without parents, from a Kustomization named by an outgoing reference. |
| Kustomize.KustomizationRefsExist | src/redux/services/kustomize.ts:122-126 | Only resources present in the map are returned. |
| Kustomize.SelectParentWidens | src/redux/services/kustomize.ts:120 | Asking for parents only adds resources. |
| Kustomize.IncomingOnlyReachesNothing | src/redux/services/kustomize.ts:120-127 | Without parents, a kustomization whose references are all incoming reaches nothing. |
| Kustomize.GetKustomizationRefsVisited | src/redux/services/kustomize.ts:111-136 | The loop of the corrected query, which passes down the running calls, equals `RefsVisited`. |
| Kustomize.VisitedViaLast | src/redux/services/kustomize.ts:119-132 | In the corrected query, the last reference adds its target and, if it names a Kustomization not yet running, what that one reaches. |
| Kustomize.VisitedViaMeaning | src/redux/services/kustomize.ts:119-132 | In the corrected query, a prefix of the references reaches a resource exactly when one of its followed references does. |
| Kustomize.RefsVisitedSound | src/redux/services/kustomize.ts:111-136 | Everything the corrected query returns is listed at the end of a chain of Kustomizations entered from the queried one. |
| Kustomize.RefsVisitedComplete | src/redux/services/kustomize.ts:111-136 | The corrected query returns whatever the end of a chain of distinct Kustomizations, none of them running, lists. |
| Kustomize.ShortenChain | src/redux/services/kustomize.ts:127-129 | Every chain of entered Kustomizations can be cut down to a chain of distinct ones with the same ends. |
| Kustomize.RefsVisitedMeaning | src/redux/services/kustomize.ts:111-136 | On any resource map, cyclic or not, the corrected query returns exactly the resources reachable from the kustomization. Incoming references count only on the queried kustomization, and only with selectParent. |
| Kustomize.RefsVisitedAgrees | src/redux/services/kustomize.ts:111-136 | Where a ranking exists, the corrected query returns exactly the list `KustomizationRefs` specifies, in order. |
| Kustomize.VisitedViaAgrees | src/redux/services/kustomize.ts:119-132 | The same agreement holds for every prefix of the kustomization's references. |
| Kustomize.CorrectedAgreesWithWritten | src/redux/services/kustomize.ts:111-136 | Where a ranking exists, the code as written, given enough depth, returns exactly what the corrected query returns. |
| Kustomize.RefsWithinAgrees | src/redux/services/kustomize.ts:111-136 | The recursion as written, given more depth than the ranking's level of the queried kustomization, returns exactly the list `KustomizationRefs` specifies. |
| Kustomize.ReachedWithinAgrees | src/redux/services/kustomize.ts:119-132 | The same agreement holds for every prefix of the kustomization's references. |
| Kustomize.OverflowPropagates | src/redux/services/kustomize.ts:119-132 | Once a prefix of the references recurses without end, so do all the references. |
| Kustomize.CycleNeverReturns | src/redux/services/kustomize.ts:111-136 | When every kustomization of a set has an outgoing reference into the set, the recursion as written from any of them exceeds every depth bound. It never returns. |
| Kustomize.NoRankingOnCycle | src/redux/services/kustomize.ts:127-129 | No ranking can cover a kustomization on such a cycle, so `KustomizationRefs` demands exactly that no cycle is reachable. |
| MainSlice.PreviewSelectionFor | src/redux/reducers/main.ts:298-319 | Both preview ids are cleared first. A kustomization preview records an id present in the resource map; a Helm preview records a values-file id present in the values map; a cluster preview records any id. Nothing is recorded otherwise. |
| MainSlice.PreviewResourceMap | src/redux/reducers/main.ts:321-330 | No resource of a previous preview survives unless the payload brings it. Other resources are untouched unless overwritten. The payload is installed whole, only when both the id and the resources are given. Nothing else appears. |
| MainSlice.ClearPreviewLeavesNoPreview | src/redux/reducers/main.ts:222-225 | After clearPreview, no preview id, no preview type and no preview resource remain. Every other resource is kept. |
| MainSlice.SelectionHighlights | src/redux/reducers/main.ts:338-349 | Selecting a path changes no key of the resource map. |
| MainSlice.SelectionHighlightsMeaning | src/redux/reducers/main.ts:339-349 | After selectFilePath, no resource is selected. A resource is highlighted exactly when it lies in the innermost entry's file or, for a folder, among its children's resources. |
| MainSlice.SelectFilePathSpec | src/redux/reducers/main.ts:337-358 | The selected resource is cleared and the selected path set. When entries exist, a values file is selected exactly when its path is the selected one. Nothing else changes. |
| MainSlice.SelectHelmValuesFileSpec | src/redux/reducers/main.ts:199-207 | An unknown id throws and changes nothing. Otherwise exactly the chosen values file is selected, the others are deselected, and its file path is selected. |
| MainSlice.SelectHelmValuesFileSelectsIt | src/redux/reducers/main.ts:201-206 | When values files are stored under their ids, the chosen one is selected and recorded as selectedValuesFileId. |
| MainSlice.Cleared | src/redux/reducers/main.ts:339 | After clearResourceSelections, the map keeps its keys, no resource is selected or highlighted, and every other field of each resource is unchanged. |
| MainSlice.ClearResourceSelections | src/redux/reducers/main.ts:339 | The loop deselects and un-highlights every resource. |
| MainSlice.HighlightResources | src/redux/reducers/main.ts:343-345 | The loop highlights exactly the given resources. |
| MainSlice.SelectValuesFilesByPath | src/redux/reducers/main.ts:351-353 | The loop selects exactly the values files with the given path. |
| MainSlice.SelectValuesFilesById | src/redux/reducers/main.ts:201-203 | The loop selects exactly the values file with the given id. |
| MainSlice.ReplacePreviewResources | src/redux/reducers/main.ts:321-330 | The purge and install loops equal the preview-map specification. |
| MainSlice.PurgePreview | src/redux/reducers/main.ts:322-324 | The purge deletes exactly the resources with a preview path. |
| MainSlice.InstallResources | src/redux/reducers/main.ts:326-330 | The install loop stores every payload resource under its id, over what was there. |
| MainSlice.AppState.constructor | src/redux/initialState.ts:11-21 | The initial state has empty resource, file, Helm-chart and Helm-values maps. Nothing is loading, selected or previewed, and both flags are false. |
| MainSlice.AppState.SetPreviewData | src/redux/reducers/main.ts:297-331 | The draft ends as the setPreviewData specification says, and every resource stays stored under its id. |
| MainSlice.AppState.ClearPreview | src/redux/reducers/main.ts:222-225 | setPreviewData with an empty payload, then no preview type. |
| MainSlice.AppState.StartPreviewLoader | src/redux/reducers/main.ts:226-230 | Loading starts for the target, with the given preview type. Nothing else changes. |
| MainSlice.AppState.StopPreviewLoader | src/redux/reducers/main.ts:231-234 | Loading stops and the target is cleared. The preview type is kept. |
| MainSlice.AppState.PreviewFulfilled | src/redux/reducers/main.ts:238-266 | The three fulfilled cases install the preview and stop loading. They keep the preview type. |
| MainSlice.AppState.PreviewRejected | src/redux/reducers/main.ts:243-271 | The three rejected cases stop loading and clear the preview type. |
| MainSlice.AppState.SetRootFolderFulfilled | src/redux/reducers/main.ts:273-284 | All four maps are replaced. Loading, the selected resource, the selected path, the preview id and the preview type are cleared. |
| MainSlice.AppState.LoadMaps | src/redux/reducers/main.ts:274-277 | The four maps of the payload replace the old ones, and the resources stay keyed by id. |
| MainSlice.AppState.SelectFilePath | src/redux/reducers/main.ts:337-358 | The draft ends as the selectFilePath specification says. |
| MainSlice.HighlightSelection | src/redux/reducers/main.ts:339-349 | Clearing and highlighting give the resource map the specification describes, and resources stay keyed by id. |
| MainSlice.AppState.SelectFile | src/redux/reducers/main.ts:211-215 | An empty path changes nothing. Any other path is selected. |
| MainSlice.AppState.SelectHelmValuesFile | src/redux/reducers/main.ts:199-207 | Reports failure and keeps the state for an unknown id. Otherwise it ends as the specification says. |
| MainSlice.AppState.SetSelectingFile | src/redux/reducers/main.ts:216-218 | Only the selecting-file flag changes. |
| MainSlice.AppState.SetApplyingResource | src/redux/reducers/main.ts:219-221 | Only the applying-resource flag changes. |
| SectionVisibility.Visit | src/navsections/sectionBlueprintMiddleware.ts:141-204 | A successful visit keeps the map's keys and never turns a visible section invisible. |
| SectionVisibility.AfterChildren | src/navsections/sectionBlueprintMiddleware.ts:181-191 | After the loop, the section is visible exactly when it was or a child is. Its descendant sections become the merge of the gathered descendants and its visible children. |
| SectionVisibility.MergedDescendants | src/navsections/sectionBlueprintMiddleware.ts:181-189 | The merged list holds exactly the gathered descendants and the visible children. It is absent only when both are absent. |
| SectionVisibility.AppendedDescendants | src/navsections/sectionBlueprintMiddleware.ts:159-164 | A child's descendant sections are appended after the ones gathered so far. The list stays absent only when both are absent. |
| SectionVisibility.Finish | src/navsections/sectionBlueprintMiddleware.ts:194-203 | The section's own visible items follow its children's. The section is written back with them, and no other section changes. |
| SectionVisibility.GatherErrorPropagates | src/navsections/sectionBlueprintMiddleware.ts:151-155 | Once a child's instance is missing, the whole loop throws that error. |
| SectionVisibility.ComputeSectionVisibility | src/navsections/sectionBlueprintMiddleware.ts:141-204 | The recursive method equals the visit specification, errors included. |
| SectionVisibility.VisitChildren | src/navsections/sectionBlueprintMiddleware.ts:151-179 | The loop over the children equals its specification: it stops at the first missing child instance or error below. |
| SectionVisibility.AbsorbChild | src/navsections/sectionBlueprintMiddleware.ts:159-178 | One turn of the loop records the child's descendant sections, its items and, when it is visible, the child itself. |
| SectionVisibility.CloseChildren | src/navsections/sectionBlueprintMiddleware.ts:181-191 | The statements after the loop equal their specification. |
| SectionVisibility.VisitSucceedsIff | src/navsections/sectionBlueprintMiddleware.ts:151-155 | A visit throws exactly when some section of the subtree has no instance. |
| SectionVisibility.VisitFrame | src/navsections/sectionBlueprintMiddleware.ts:141-204 | A visit changes no section outside its subtree. |
| SectionVisibility.VisitItemsInTree | src/navsections/sectionBlueprintMiddleware.ts:146-198 | Over a tree, visibleDescendantItemIds are the children's visible descendant items in blueprint order, followed by the section's own visible items. |
| SectionVisibility.VisitVisibleInTree | src/navsections/sectionBlueprintMiddleware.ts:190-191 | Over a tree, a section ends up visible exactly when it was visible or one of its child sections is. |
| SectionVisibility.VisitChildListInTree | src/navsections/sectionBlueprintMiddleware.ts:171-178 | Over a tree, a section that listed no visible children ends with exactly its visible child sections, in blueprint order. |
| SectionVisibility.VisitDescendantsInTree | src/navsections/sectionBlueprintMiddleware.ts:141-204 | Over a tree whose sections list no visible sections yet, a visited section's visibleDescendantSectionIds hold exactly the sections of its subtree, itself excluded, that end up visible. The list is absent exactly when there is none. |
| SectionVisibility.GatherDescendantsInTree | src/navsections/sectionBlueprintMiddleware.ts:151-179 | Over a tree of fresh instances, the loop over the children gathers exactly the visible sections strictly below the children. |
| SectionVisibility.ClosedDescendantsInTree | src/navsections/sectionBlueprintMiddleware.ts:151-191 | Over a tree of fresh instances, after the loop and the merge with the visible children, the section's list holds exactly the visible sections strictly below it. |
| SectionBlueprint.PickPartialRecord | src/navsections/sectionBlueprintMiddleware.ts:45-52 | The result holds exactly the record's entries whose key is listed, with unchanged values. |
| SectionBlueprint.ShallowEqual | src/navsections/sectionBlueprintMiddleware.ts:60-64 | Two records are shallowly equal exactly when they are equal, with values compared by identity. |
| SectionBlueprint.HasNavigatorInstanceStateChangedMeaning | src/navsections/sectionBlueprintMiddleware.ts:54-66 | The state has changed exactly when some new item or section instance is not already stored, identically, in the navigator. |
| SectionBlueprint.CountChecked | src/navsections/sectionBlueprintMiddleware.ts:115-121 | The count is at most the number of items. It is zero exactly when none is checked, and equals the number of items exactly when all are checked. |
| SectionBlueprint.CheckableFor | src/navsections/sectionBlueprintMiddleware.ts:108-134 | There is no check box without makeCheckable or without visible descendant items. Otherwise the box is unchecked when no item is checked, checked when all are, and partial otherwise, with its actions made for those items. |
| SectionBlueprint.ComputeSectionCheckable | src/navsections/sectionBlueprintMiddleware.ts:103-135 | The method sets exactly that check box and changes nothing else. |
| SectionBlueprint.CountCheckedItems | src/navsections/sectionBlueprintMiddleware.ts:115-121 | The counting loop counts the checked items. |
| SectionBlueprint.BuildItems | src/navsections/sectionBlueprintMiddleware.ts:264-279 | One item instance per raw item, in order. |
| SectionBlueprint.VisibleIds | src/navsections/sectionBlueprintMiddleware.ts:298 | The visible item ids are exactly the ids of the visible items. |
| SectionBlueprint.GroupInstances | src/navsections/sectionBlueprintMiddleware.ts:294-297 | Each group keeps its fields. Its visible items are exactly the listed items whose stored instance is visible. |
| SectionBlueprint.NonEmptyGroupIds | src/navsections/sectionBlueprintMiddleware.ts:299 | The visible groups are exactly those with a visible item. |
| SectionBlueprint.BuildSectionInstance | src/navsections/sectionBlueprintMiddleware.ts:300-322 | Before initialisation a section is visible only by its flag or the empty display. Afterwards it also needs the builder's consent and a visible item or group. The visibility and check-box fields start absent. |
| SectionBlueprint.SectionInstanceItems | src/navsections/sectionBlueprintMiddleware.ts:285-303 | The section lists its items' ids and its visible items. It is selected or highlighted exactly when one of its items is. |
| SectionBlueprint.SectionInstanceGroups | src/navsections/sectionBlueprintMiddleware.ts:294-299 | The section's groups show their visible items, and its visible groups are those with one. |
| SectionBlueprint.SectionInstanceNeverExpands | src/navsections/sectionBlueprintMiddleware.ts:317-319 | A freshly built section never asks to expand. |
| BlueprintMiddleware.ScanEntries | src/navsections/sectionBlueprintMiddleware.ts:220-231 | Every key of the full scope is flagged exactly when its stored value differs from the cached one, and no other key is flagged. |
| BlueprintMiddleware.ScanEntriesKeys | src/navsections/sectionBlueprintMiddleware.ts:220-231 | Scanning a scope adds exactly its keys to the full scope. |
| BlueprintMiddleware.ScanOne | src/navsections/sectionBlueprintMiddleware.ts:222-225 | Scanning one entry leaves the scan as it was when its key already holds a truthy value. Otherwise the key ends up holding either a truthy value or the entry's value. No other key changes. |
| BlueprintMiddleware.ScanKeepsTruthy | src/navsections/sectionBlueprintMiddleware.ts:222-225 | A key that already holds a truthy value keeps it through any further entries. |
| BlueprintMiddleware.ScanNeverTruthy | src/navsections/sectionBlueprintMiddleware.ts:222-225 | A key without a truthy value, for which no entry brings one, never holds a truthy value. |
| BlueprintMiddleware.ScanFirstTruthyWins | src/navsections/sectionBlueprintMiddleware.ts:220-231 | A key without a truthy value ends up holding the first truthy value that the entries bring for it. |
| BlueprintMiddleware.ScanLastWins | src/navsections/sectionBlueprintMiddleware.ts:220-231 | When no entry brings a truthy value for a key, the key ends up holding the value of its last entry. |
| BlueprintMiddleware.ScanEntriesAppend | src/navsections/sectionBlueprintMiddleware.ts:217-233 | Scanning the sections one after the other equals scanning all their entries at once. |
| BlueprintMiddleware.ScanIgnoresCache | src/navsections/sectionBlueprintMiddleware.ts:222-225 | The full scope gathered does not depend on the cache; only the change flags do. |
| BlueprintMiddleware.KeysBySection | src/navsections/sectionBlueprintMiddleware.ts:219-232 | The ids with a key list are exactly the registered sections' ids. |
| BlueprintMiddleware.KeysBySectionMeaning | src/navsections/sectionBlueprintMiddleware.ts:219-232 | With unique ids, every registered section finds under its id its list of scope keys, including the keys whose value was skipped. |
| BlueprintMiddleware.ScanSection | src/navsections/sectionBlueprintMiddleware.ts:219-232 | The loop over one section's scope equals the scan specification and collects its keys. |
| BlueprintMiddleware.ScanScopes | src/navsections/sectionBlueprintMiddleware.ts:217-233 | The scan loop equals the scan specification. |
| BlueprintMiddleware.NothingChangedMeaning | src/navsections/sectionBlueprintMiddleware.ts:235-238 | The early return is taken exactly when every value in the full scope is the cached one. |
| BlueprintMiddleware.ChangedAsWritten | src/navsections/sectionBlueprintMiddleware.ts:226-230 | As written (the cache declared at line 43 is never written), a scanned key counts as changed exactly when its value is defined. |
| BlueprintMiddleware.AsWrittenRescanStillChanges | src/navsections/sectionBlueprintMiddleware.ts:226-238 | As written, the same scope scanned on two actions in a row still counts as changed. |
| BlueprintMiddleware.CacheAfterScan | src/navsections/sectionBlueprintMiddleware.ts:43 | The corrected cache holds every value of the full scope just seen and keeps other cached values. |
| BlueprintMiddleware.RescanReportsNothingChanged | src/navsections/sectionBlueprintMiddleware.ts:235-238 | With the corrected cache, scanning an unchanged state again takes the early return. |
| BlueprintMiddleware.StoreItems | src/navsections/sectionBlueprintMiddleware.ts:280-282 | The record still lists every key once. Its earlier keys keep their places, and new keys come after them. |
| BlueprintMiddleware.StoreItemsLastWins | src/navsections/sectionBlueprintMiddleware.ts:280-282 | An item with no later item of the same id is the one stored under its id. |
| BlueprintMiddleware.StoreItemsKeepsOthers | src/navsections/sectionBlueprintMiddleware.ts:280-282 | A key that no stored item has keeps its earlier value. |
| BlueprintMiddleware.StoreItemsKeys | src/navsections/sectionBlueprintMiddleware.ts:280-282 | After storing, the record holds exactly its earlier keys and the ids of the stored items. |
| BlueprintMiddleware.BuildInstances | src/navsections/sectionBlueprintMiddleware.ts:240-324 | Both records of the built state list every key exactly once. |
| BlueprintMiddleware.RebuiltOrder | src/navsections/sectionBlueprintMiddleware.ts:245-251 | The order lists exactly the rebuilt sections. |
| BlueprintMiddleware.BuildInstancesOrder | src/navsections/sectionBlueprintMiddleware.ts:240-324 | With unique section ids, the built sections are listed in registration order. |
| BlueprintMiddleware.BuildInstancesKeys | src/navsections/sectionBlueprintMiddleware.ts:240-324 | Instances are built for exactly the sections whose scope changed, each stored under its own id. |
| BlueprintMiddleware.BuildSection | src/navsections/sectionBlueprintMiddleware.ts:245-283 | One section's turn of the building loop equals the specification's step. |
| BlueprintMiddleware.RebuiltIds | src/navsections/sectionBlueprintMiddleware.ts:245-251 | A section is rebuilt exactly when one of its scope keys is flagged as changed. |
| BlueprintMiddleware.StoreItemInstances | src/navsections/sectionBlueprintMiddleware.ts:280-282 | The storing loop equals the specification. |
| BlueprintMiddleware.BuildSectionInstances | src/navsections/sectionBlueprintMiddleware.ts:240-324 | The building loop equals the specification. |
| BlueprintMiddleware.Roots | src/navsections/sectionBlueprintMiddleware.ts:326-329 | The roots are exactly the built sections whose blueprint is its own root. |
| BlueprintMiddleware.VisitRoots | src/navsections/sectionBlueprintMiddleware.ts:331-333 | Computing visibility from every root keeps the map's keys. |
| BlueprintMiddleware.ComputeRootsVisibility | src/navsections/sectionBlueprintMiddleware.ts:331-333 | The loop over the roots equals the specification. |
| BlueprintMiddleware.RegisteredById | src/navsections/sectionBlueprintMiddleware.ts:342 | A registered section is found exactly when one has that id. |
| BlueprintMiddleware.CheckAll | src/navsections/sectionBlueprintMiddleware.ts:341-349 | Computing the check boxes keeps the map's keys. |
| BlueprintMiddleware.CheckAllMeaning | src/navsections/sectionBlueprintMiddleware.ts:341-349 | Every listed section of a registered blueprint gets the check box its makeCheckable asks for. The others stay as they are. |
| BlueprintMiddleware.ComputeCheckables | src/navsections/sectionBlueprintMiddleware.ts:341-349 | The loop equals the specification. |
| BlueprintMiddleware.Processed | src/navsections/sectionBlueprintMiddleware.ts:208-349 | The assembled state's records enumerate their keys. |
| BlueprintMiddleware.ProcessedSections | src/navsections/sectionBlueprintMiddleware.ts:240-349 | The assembled sections are exactly the rebuilt ones. Each has the check box its blueprint's makeCheckable asks for over its visible descendant items. |
| BlueprintMiddleware.DispatchedMeaning | src/navsections/sectionBlueprintMiddleware.ts:351-362 | Something is dispatched exactly when the new state is not empty and holds an instance the navigator does not already hold as it is. What is dispatched is the new state. (In the source every instance is a new object, so a non-empty state is always dispatched; see Left out.) |
| BlueprintMiddleware.AssembleInstances | src/navsections/sectionBlueprintMiddleware.ts:240-349 | Building, visibility and check boxes together equal the specification of the processed state. |
| BlueprintMiddleware.ProcessSectionBlueprints | src/navsections/sectionBlueprintMiddleware.ts:208-363 | The method dispatches what the specification says and stores the scanned scope in the cache (the corrected behaviour). |
| BlueprintMiddleware.DispatchIfChanged | src/navsections/sectionBlueprintMiddleware.ts:351-362 | The end of processing equals its specification. |
| BlueprintMiddleware.SectionBlueprintMiddleware | src/navsections/sectionBlueprintMiddleware.ts:365-376 | The navigator's own three actions dispatch nothing and leave the cache alone. Every other action processes the blueprints. |
| InitialState.FindSection | src/redux/initialState.ts:37 | `find` returns the first section with that name, or none when no section has it. |
| InitialState.InsertIndex | src/redux/initialState.ts:50-58 | The found section is ranked after the new one, and every section before it is not. With -1, no section is ranked after it. |
| InitialState.AddSubsection | src/redux/initialState.ts:37-65 | An existing section gets the subsection at its end and nothing else changes. Otherwise a new section holding only the subsection is inserted without moving the others. |
| InitialState.AddSubsectionInserts | src/redux/initialState.ts:44-64 | A new section goes where findIndex points, or at the end when it answers -1. |
| InitialState.AddSubsectionKeepsSorted | src/redux/initialState.ts:44-65 | Inserting before the first section ranked after the new one keeps the sections sorted by the order list. |
| InitialState.AddSubsectionKeepsDistinctNames | src/redux/initialState.ts:37-65 | A navigator never gets two sections with the same name. |
| InitialState.AddSubsectionHolds | src/redux/initialState.ts:37-65 | The handler's subsection lands in the section of its name, and every earlier subsection stays where it was. |
| InitialState.AddSubsectionCount | src/redux/initialState.ts:31-65 | Each handler adds exactly one subsection. |
| InitialState.SubsectionCountReplace | src/redux/initialState.ts:37-40 | Replacing one section changes the subsection count by the difference of its subsections. |
| InitialState.SubsectionCountInsert | src/redux/initialState.ts:44-64 | Inserting a section adds its subsections to the count. |
| InitialState.AddHandler | src/redux/initialState.ts:24-73 | One step of the reduce keeps every navigator stored under its own name. |
| InitialState.NavigatorsByName | src/redux/initialState.ts:24-74 | The reduce keeps every navigator stored under its own name. |
| InitialState.Values | src/redux/initialState.ts:23 | `Object.values` lists the navigators in key order. |
| InitialState.PlaceSubsection | src/redux/initialState.ts:37-65 | The push or splice equals the section specification. |
| InitialState.BuildNavigators | src/redux/initialState.ts:23-75 | The loop builds exactly the navigators of the specification. |
| InitialState.CollectValues | src/redux/initialState.ts:23 | The loop lists the record's values in key order. |
| InitialState.NavigatorOrderIsFirstAppearance | src/redux/initialState.ts:24-29 | The navigator names are the handlers' navigator names without repetitions, in order of first appearance. |
| InitialState.OneNavigatorPerName | src/redux/initialState.ts:23-75 | There is exactly one navigator per distinct navigator name, in order of first appearance. |
| InitialState.SectionsSorted | src/redux/initialState.ts:44-65 | Every navigator's sections are sorted by the order list. |
| InitialState.SectionNamesDistinct | src/redux/initialState.ts:37-65 | No navigator has two sections with the same name. |
| InitialState.AddHandlerListed | src/redux/initialState.ts:24-73 | One step of the reduce lists its handler's subsection where the path names it, and keeps every handler listed before. |
| InitialState.EveryHandlerListed | src/redux/initialState.ts:24-74 | Every handler's subsection (its kind and API-version matcher) sits in the section, and the navigator, that its path names. |
| InitialState.ValuesAfterStore | src/redux/initialState.ts:67-73 | After an assignment, an existing navigator is replaced in place and a new one comes last. |
| InitialState.OneSubsectionPerHandler | src/redux/initialState.ts:23-75 | The navigators hold exactly as many subsections as there are kind handlers. |
| TransferResource.CreateResource | src/redux/services/compare/transferResource.ts:118-134 | The name comes from metadata.name, defaulting to UNKNOWN. Kind, version, content and text come from the manifest. The path is the unsaved marker followed by the fresh id. The resource is unselected and unhighlighted. The id, path and name overrides win. |
| TransferResource.CreatedResourceIsUnsaved | src/redux/services/compare/transferResource.ts:118-134 | Without a path override, a created resource is an unsaved one, not a preview resource. |
| TransferResource.DeployNamespace | src/redux/services/compare/transferResource.ts:63 | The resource's namespace, else the requested one, else `default`. |
| TransferResource.DeployedPathIsPreview | src/redux/services/compare/transferResource.ts:95 | A deployed copy's path is a preview path. Within one context, its id tells it apart. |
| TransferResource.DeployResourceToCluster | src/redux/services/compare/transferResource.ts:50-99 | The namespace is created only when the cluster lacks it, then the source is applied there. The copy carries the cluster's content, or the source's when the fetch yields nothing. It takes the target's id when there is a target, otherwise the fresh id. It lies on the context's preview path. |
| TransferResource.ExtractResourceToLocal | src/redux/services/compare/transferResource.ts:101-116 | With a target, the result is the target with only its text replaced by the source's, and the store is told so. Without one, it is a new unsaved resource named like the source, with the source's content. |
| TransferResource.DoTransferResource | src/redux/services/compare/transferResource.ts:33-48 | A transfer to the cluster deploys and one to the local workspace extracts. Any other target throws `transfer unsupported`. |
| TransferResource.CanTransferAgreesWithDispatch | src/redux/services/compare/transferResource.ts:21-48 | For a known source side, canTransfer holds exactly when doTransferResource carries the transfer out. |
| FilePatternList.AddPattern | src/components/molecules/FilePatternList/FilePatternList.tsx:58-65 | A listed input leaves the list alone, and the callback is not called. Otherwise the input is appended at the end. |
| FilePatternList.AddPatternKeepsDistinct | src/components/molecules/FilePatternList/FilePatternList.tsx:58-65 | Adding keeps a list free of duplicates and leaves the input listed. |
| FilePatternList.RemovePattern | src/components/molecules/FilePatternList/FilePatternList.tsx:67-69 | Every occurrence of the pattern is removed and every other element keeps its multiplicity. |
| FilePatternList.IsPatternUnique | src/components/molecules/FilePatternList/FilePatternList.tsx:54-56 | A pattern is unique exactly when the list does not hold it. |
| FilePatternList.RemovePatternConcat | src/components/molecules/FilePatternList/FilePatternList.tsx:67-69 | Removal distributes over concatenation, so what is kept stays in its order. |
| FilePatternList.RemoveUndoesAdd | src/components/molecules/FilePatternList/FilePatternList.tsx:58-69 | Removing a pattern just added gives back the list it was added to. |
| FilePatternList.UpdatePattern | src/components/molecules/FilePatternList/FilePatternList.tsx:71-76 | When the old pattern is listed, the result is the list with the new pattern at the old one's first index (indexOf) and every other position unchanged. When it is absent, the result is all but the last pattern, then the new one, then the whole list. |
| FilePatternList.UpdatePatternRoundTrip | src/components/molecules/FilePatternList/FilePatternList.tsx:54-76 | Replacing a listed pattern by one that passes isPatternUnique keeps the list free of duplicates. Replacing it back restores the list. |

## Left out

- I/O and foreign code are not modelled. This covers the file system, YAML parsing and printing, the Kubernetes client, uuid generation, logging, the DOM and React. Where the core depends on them, what they return is a parameter: the cluster's answers, the fresh uuid, `jsonToYaml`, the entries `getAllFileEntriesForPath` yields, the resources `highlightChildrenResources` marks, and the builder callbacks' answers.
- The helpers `linkResources`, `getResourcesForPath`, `getK8sResources`, `getScalarNodes` and `clearResourceSelections` are not part of this model's sources. They are modelled by their evident behaviour:
  - an outgoing reference on the kustomization, with the entry's value and position;
  - an incoming reference without position on the target;
  - the map's resources of a path, in map order;
  - `clearResourceSelections` (imported at `src/redux/reducers/main.ts:16`) sets `isSelected` and `isHighlighted` to false on every resource and changes nothing else.
- The values of `PREVIEW_PREFIX` (`preview://`), `UNSAVED_PREFIX` (`unsaved://`) and the navigator action types (`navigator/updateNavigatorInstanceState`, `navigator/expandSectionIds`, `navigator/collapseSectionIds`) are assumed. So is the section order list, which is a parameter.
- The deployed path keeps the source's template: the prefix, `://`, the context, `/` and the id. With the assumed prefix, `://` therefore appears twice.
- `computeItemScrollIntoView` and `isScrolledIntoView` are left out: they measure DOM elements. `heightByContainerElementId` and the ResizeObserver are left out too.
- `asyncLib.each` runs its iterations one after the other, in registration order. No callback awaits anything, so no interleaving is modelled.
- Values stand in for the source's in-place mutation of shared objects. The maps of section instances, item instances and resources are threaded through as values, so aliasing is not modelled.
- `MainSlice.AppState.SetPreviewData`: the payload's resources must be stored under their own ids. The source re-keys them by `r.id`.
- `SectionVisibility.ComputeSectionVisibility`: when a child instance is missing, the error ends that root's computation. The model then keeps the instance map as it was before that root, whereas the source keeps whatever it had already mutated.
- `SectionVisibility.VisitItemsInTree`, `VisitVisibleInTree` and `VisitChildListInTree` hold for blueprints that form a tree (the `Tree` predicate). Shared subsections are not covered.
- `SectionVisibility.VisitDescendantsInTree`, `GatherDescendantsInTree` and `ClosedDescendantsInTree` hold for blueprints that form a tree. They also need the sections below to list no visible sections before the visit (`Unvisited`). `ClosedDescendantsInTree` also needs the section itself to list none. Freshly built instances satisfy this.
- `Wrappers.Store`: keys are assumed not to be array indices (canonical numeric strings such as `0` or `17`). JavaScript lists such keys first, in ascending order, whereas the model appends every new key. The keys of the core are names and ids that are not of this form.
- `SectionBlueprint.ShallowEqual` compares values by identity. Object identity is modelled as value equality of the instances. In the source the middleware builds new instance objects on every run, so `Object.is` never finds one already stored. The source therefore dispatches whenever the new state is not empty. The model's case of an equal instance already stored, where nothing is dispatched, does not arise in the source.
- `BlueprintMiddleware.ProcessSectionBlueprints` stores the scanned scope in the cache (the corrected behaviour; see Findings). `ChangedAsWritten` models the source as written.
- `createResource` leaves `isDirty`, `refs`, `namespace` and `range` undefined. The model uses false, no references and absent values.
- `structuredClone` and `cloneDeep` are identities on values.
- A transfer's side-effecting calls (namespace creation, apply, the store update) are returned as a list of effects rather than performed.
- The reducers and services outside the named core are not modelled. This covers file changes, saving, diffs, `selectK8sResource` and the rest of `main.ts`.
- The blueprint registry (`sectionBlueprintMap`) and the kind handlers are inputs.
- `path.join` and `path.parse` are simplified: there is no normalisation of `.` or `..` segments. `toLowerCase` is ASCII only.

## Findings

| source | as written | input that shows it | evidently intended | confidence | as-written member | corrected member |
|---|---|---|---|---|---|---|
| src/navsections/sectionBlueprintMiddleware.ts:226-238 | The scope cache (declared at line 43) is created empty and never written, so every scan compares against an empty cache. | Any two actions in a row with an unchanged scope holding a defined value (for example a section scope `{resourceMap: <map>}`): the second scan still flags `resourceMap` as changed, and the "fullScope did not change" early return never fires. | After a scan the cache holds the full scope just seen, so an unchanged scope takes the early return. | not executed | BlueprintMiddleware.AsWrittenRescanStillChanges | BlueprintMiddleware.RescanReportsNothingChanged |
| src/redux/services/kustomize.ts:111-136 | The function recurses into every Kustomization named by an outgoing reference, with no record of the kustomizations already being visited. | A kustomization whose `resources` lists `.` (its own folder, which kustomize.ts:50-73 links back to the kustomization itself), or two kustomizations that list each other's folders. The recursion never returns, and the call ends with a stack overflow. | The call returns the resources reachable from the kustomization, each cycle followed once. | not executed; medium (it depends on such a kustomization being loaded) | Kustomize.CycleNeverReturns | Kustomize.RefsVisitedMeaning |
