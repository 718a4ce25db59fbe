/**
 * The `main` slice of the application state and the reducers that manage previews,
 * selection and the root folder. The Immer draft that the reducers mutate is the class
 * `AppState`; `Snapshot()` reads all of its fields as one value, and each reducer is
 * specified by a transition on that value.
 */
module MainSlice {
  import opened Wrappers
  import opened K8sResource
  import opened AppModel

  /** 'kustomization' | 'helm' | 'cluster'. */
  datatype PreviewType = KustomizationPreview | HelmPreview | ClusterPreview

  datatype PreviewLoader = PreviewLoader(isLoading: bool, targetResourceId: Option<string>)

  /** What a preview thunk delivers: the id previewed and the resources it generated. */
  datatype PreviewPayload = PreviewPayload(previewResourceId: Option<string>, previewResources: Option<map<string, Resource>>)

  /** The fields of the slice that the modelled reducers read or write. */
  datatype MainState = MainState(
    resourceMap: map<string, Resource>,
    fileMap: map<string, FileEntry>,
    helmChartMap: map<string, HelmChart>,
    helmValuesMap: map<string, HelmValuesFile>,
    previewLoader: PreviewLoader,
    selectedResourceId: Option<string>,
    selectedPath: Option<string>,
    selectedValuesFileId: Option<string>,
    previewResourceId: Option<string>,
    previewValuesFileId: Option<string>,
    previewType: Option<PreviewType>,
    isSelectingFile: bool,
    isApplyingResource: bool)

  /** initialAppState: empty maps, nothing loading, selected or previewed. */
  function InitialMainState(): MainState {
    MainState(map[], map[], map[], map[], PreviewLoader(false, None),
              None, None, None, None, None, None, false, false)
  }

  // ---------------------------------------------------------------------------
  // setPreviewData
  // ---------------------------------------------------------------------------

  /** The new preview resources are installed only when both the id and the resources are given. */
  predicate Installs(p: PreviewPayload) {
    IsSet(p.previewResourceId) && p.previewResources.Some?
  }

  datatype PreviewSelection = PreviewSelection(resourceId: Option<string>, valuesFileId: Option<string>)

  /** Which preview ids setPreviewData records, given the preview type in force and the maps before the purge. */
  function PreviewSelectionFor(previewType: Option<PreviewType>, pid: Option<string>,
                               rm: map<string, Resource>, hv: map<string, HelmValuesFile>): (sel: PreviewSelection)
    ensures sel.resourceId.Some? <==>
      IsSet(pid) && (previewType == Some(ClusterPreview) || (previewType == Some(KustomizationPreview) && pid.value in rm))
    ensures sel.valuesFileId.Some? <==> IsSet(pid) && previewType == Some(HelmPreview) && pid.value in hv
    ensures sel.resourceId.Some? ==> sel.resourceId == pid
    ensures sel.valuesFileId.Some? ==> sel.valuesFileId == pid
  {
    if !IsSet(pid) then PreviewSelection(None, None)
    else
      var id := pid.value;
      var resourceId :=
        if previewType == Some(KustomizationPreview) && id in rm then Some(id)
        else if previewType == Some(ClusterPreview) then Some(id)
        else None;
      var valuesFileId := if previewType == Some(HelmPreview) && id in hv then Some(id) else None;
      PreviewSelection(resourceId, valuesFileId)
  }

  /** The resource map after setPreviewData: the old preview purged, the new one installed. */
  function PreviewResourceMap(m: map<string, Resource>, p: PreviewPayload): (r: map<string, Resource>)
    // no resource of a previous preview survives unless the payload brings it
    ensures forall id :: id in r && IsPreviewPath(r[id].filePath) ==>
      Installs(p) && id in p.previewResources.value && r[id] == p.previewResources.value[id]
    // resources outside the preview are untouched unless the payload overwrites them
    ensures forall id :: id in m && !IsPreviewPath(m[id].filePath) && !(Installs(p) && id in p.previewResources.value) ==>
      id in r && r[id] == m[id]
    // the payload is installed whole
    ensures Installs(p) ==> forall id :: id in p.previewResources.value ==> id in r && r[id] == p.previewResources.value[id]
    // nothing else appears
    ensures forall id :: id in r ==> id in m || (Installs(p) && id in p.previewResources.value)
    ensures KeyedById(m) && (Installs(p) ==> KeyedById(p.previewResources.value)) ==> KeyedById(r)
  {
    var kept := map id | id in m && !IsPreviewPath(m[id].filePath) :: m[id];
    if Installs(p) then kept + p.previewResources.value else kept
  }

  function SetPreviewDataSpec(s: MainState, p: PreviewPayload): MainState {
    var sel := PreviewSelectionFor(s.previewType, p.previewResourceId, s.resourceMap, s.helmValuesMap);
    s.(previewResourceId := sel.resourceId, previewValuesFileId := sel.valuesFileId,
       resourceMap := PreviewResourceMap(s.resourceMap, p))
  }

  /** clearPreview: setPreviewData with an empty payload, then no preview type. */
  function ClearPreviewSpec(s: MainState): MainState {
    SetPreviewDataSpec(s, PreviewPayload(None, None)).(previewType := None)
  }

  lemma ClearPreviewLeavesNoPreview(s: MainState)
    ensures var t := ClearPreviewSpec(s);
      && t.previewResourceId.None? && t.previewValuesFileId.None? && t.previewType.None?
      && (forall id :: id in t.resourceMap ==> !IsPreviewPath(t.resourceMap[id].filePath))
      && (forall id :: id in s.resourceMap && !IsPreviewPath(s.resourceMap[id].filePath) ==>
            id in t.resourceMap && t.resourceMap[id] == s.resourceMap[id])
  {
  }

  // ---------------------------------------------------------------------------
  // selectFilePath and selectHelmValuesFile
  // ---------------------------------------------------------------------------

  /** clearResourceSelections: nothing selected, nothing highlighted. */
  function Cleared(m: map<string, Resource>): (r: map<string, Resource>)
    ensures r.Keys == m.Keys
    ensures forall id :: id in r ==> !r[id].isSelected && !r[id].isHighlighted
    ensures forall id :: id in r ==> r[id].(isSelected := m[id].isSelected, isHighlighted := m[id].isHighlighted) == m[id]
  {
    map id | id in m :: m[id].(isSelected := false, isHighlighted := false)
  }

  /** Highlights the resources whose ids are in `ids`. */
  function Highlighted(m: map<string, Resource>, ids: set<string>): map<string, Resource> {
    map id | id in m :: if id in ids then m[id].(isHighlighted := true) else m[id]
  }

  /** The ids of the resources stored in file `p` (the source's getResourcesForPath, as a set). */
  function IdsInFile(m: map<string, Resource>, p: string): set<string> {
    set id | id in m && m[id].filePath == p
  }

  /** Each values file is selected exactly when its path is `p`. */
  function ValuesSelectedByPath(hv: map<string, HelmValuesFile>, p: string): map<string, HelmValuesFile> {
    map k | k in hv :: hv[k].(isSelected := hv[k].filePath == p)
  }

  /** Each values file is selected exactly when its id is `id`. */
  function ValuesSelectedById(hv: map<string, HelmValuesFile>, id: string): map<string, HelmValuesFile> {
    map k | k in hv :: hv[k].(isSelected := hv[k].id == id)
  }

  /**
   * The resource map after selectFilePath: every selection cleared, then the resources of the
   * innermost entry's file highlighted and, when that entry is a folder, the resources in `childIds`.
   */
  function SelectionHighlights(m: map<string, Resource>, entries: seq<FileEntry>, childIds: set<string>): (r: map<string, Resource>)
    ensures r.Keys == m.Keys
  {
    var cleared := Cleared(m);
    if |entries| > 0 then
      var parent := entries[|entries| - 1];
      var own := Highlighted(cleared, IdsInFile(cleared, parent.filePath));
      if parent.children.Some? then Highlighted(own, childIds) else own
    else
      cleared
  }

  /** After selectFilePath no resource is selected, and a resource is highlighted exactly when it belongs to the selected entry. */
  lemma SelectionHighlightsMeaning(m: map<string, Resource>, entries: seq<FileEntry>, childIds: set<string>, id: string)
    requires id in m
    ensures var r := SelectionHighlights(m, entries, childIds);
      && id in r
      && !r[id].isSelected
      && (r[id].isHighlighted <==>
            |entries| > 0 && (m[id].filePath == entries[|entries| - 1].filePath
                              || (entries[|entries| - 1].children.Some? && id in childIds)))
      && r[id] == m[id].(isSelected := false, isHighlighted := r[id].isHighlighted)
  {
    var cleared := Cleared(m);
    assert cleared[id] == m[id].(isSelected := false, isHighlighted := false);
    if |entries| > 0 {
      var parent := entries[|entries| - 1];
      var own := Highlighted(cleared, IdsInFile(cleared, parent.filePath));
      assert id in IdsInFile(cleared, parent.filePath) <==> m[id].filePath == parent.filePath;
    }
  }

  /**
   * selectFilePath. `entries` stands for getAllFileEntriesForPath (the entries from the root
   * down to the path) and `childIds` for the resources highlightChildrenResources marks.
   */
  function SelectFilePathSpec(s: MainState, path: string, entries: seq<FileEntry>, childIds: set<string>): (t: MainState)
    ensures t.selectedResourceId.None? && t.selectedPath == Some(path)
    ensures t.resourceMap == SelectionHighlights(s.resourceMap, entries, childIds)
    ensures |entries| > 0 ==>
      (t.helmValuesMap.Keys == s.helmValuesMap.Keys
       && forall k :: k in t.helmValuesMap ==>
            t.helmValuesMap[k] == s.helmValuesMap[k].(isSelected := s.helmValuesMap[k].filePath == path))
    ensures |entries| == 0 ==> t.helmValuesMap == s.helmValuesMap
    ensures t == s.(resourceMap := t.resourceMap, helmValuesMap := t.helmValuesMap,
                    selectedResourceId := None, selectedPath := Some(path))
  {
    var hv := if |entries| > 0 then ValuesSelectedByPath(s.helmValuesMap, path) else s.helmValuesMap;
    s.(resourceMap := SelectionHighlights(s.resourceMap, entries, childIds), helmValuesMap := hv,
       selectedResourceId := None, selectedPath := Some(path))
  }

  /**
   * selectHelmValuesFile. Looking up a missing id throws, and the draft is discarded:
   * the result is None and the state stays as it was.
   */
  function SelectHelmValuesFileSpec(s: MainState, id: string, entries: seq<FileEntry>, childIds: set<string>): (t: Option<MainState>)
    ensures t.None? <==> id !in s.helmValuesMap
    ensures t.Some? ==>
      && t.value.selectedValuesFileId == (if s.helmValuesMap[id].id == id then Some(id) else None)
      && t.value.selectedPath == Some(s.helmValuesMap[id].filePath)
      && t.value.helmValuesMap.Keys == s.helmValuesMap.Keys
      && (|entries| == 0 ==> forall k :: k in s.helmValuesMap ==>
            t.value.helmValuesMap[k] == s.helmValuesMap[k].(isSelected := s.helmValuesMap[k].id == id))
      && (|entries| > 0 ==> forall k :: k in s.helmValuesMap ==>
            t.value.helmValuesMap[k] == s.helmValuesMap[k].(isSelected := s.helmValuesMap[k].filePath == s.helmValuesMap[id].filePath))
  {
    if id !in s.helmValuesMap then None
    else
      var hv := ValuesSelectedById(s.helmValuesMap, id);
      var s1 := s.(helmValuesMap := hv, selectedValuesFileId := if hv[id].isSelected then Some(id) else None);
      Some(SelectFilePathSpec(s1, hv[id].filePath, entries, childIds))
  }

  /** When every values file is stored under its own id, the chosen file is the selected one. */
  lemma SelectHelmValuesFileSelectsIt(s: MainState, id: string, entries: seq<FileEntry>, childIds: set<string>)
    requires id in s.helmValuesMap
    requires forall k :: k in s.helmValuesMap ==> s.helmValuesMap[k].id == k
    ensures var t := SelectHelmValuesFileSpec(s, id, entries, childIds);
      && t.Some? && t.value.selectedValuesFileId == Some(id)
      && t.value.helmValuesMap[id].isSelected
      && (|entries| == 0 ==> forall k :: k in t.value.helmValuesMap && k != id ==> !t.value.helmValuesMap[k].isSelected)
  {
  }

  // ---------------------------------------------------------------------------
  // Loops over the maps, as the source's forEach calls run them
  // ---------------------------------------------------------------------------

  method ClearResourceSelections(m: map<string, Resource>) returns (r: map<string, Resource>)
    ensures r == Cleared(m)
  {
    r := m;
    var todo := m.Keys;
    while todo != {}
      invariant todo <= m.Keys && r.Keys == m.Keys
      invariant forall id :: id in m ==> r[id] == if id in todo then m[id] else m[id].(isSelected := false, isHighlighted := false)
      decreases todo
    {
      var id :| id in todo;
      r := r[id := r[id].(isSelected := false, isHighlighted := false)];
      todo := todo - {id};
    }
  }

  method HighlightResources(m: map<string, Resource>, ids: set<string>) returns (r: map<string, Resource>)
    ensures r == Highlighted(m, ids)
  {
    r := m;
    var todo := ids;
    while todo != {}
      invariant todo <= ids && r.Keys == m.Keys
      invariant forall id :: id in m ==> r[id] == if id in ids && id !in todo then m[id].(isHighlighted := true) else m[id]
      decreases todo
    {
      var id :| id in todo;
      if id in r {
        r := r[id := r[id].(isHighlighted := true)];
      }
      todo := todo - {id};
    }
  }

  method SelectValuesFilesByPath(hv: map<string, HelmValuesFile>, p: string) returns (r: map<string, HelmValuesFile>)
    ensures r == ValuesSelectedByPath(hv, p)
  {
    r := hv;
    var todo := hv.Keys;
    while todo != {}
      invariant todo <= hv.Keys && r.Keys == hv.Keys
      invariant forall k :: k in hv ==> r[k] == if k in todo then hv[k] else hv[k].(isSelected := hv[k].filePath == p)
      decreases todo
    {
      var k :| k in todo;
      r := r[k := r[k].(isSelected := r[k].filePath == p)];
      todo := todo - {k};
    }
  }

  method SelectValuesFilesById(hv: map<string, HelmValuesFile>, id: string) returns (r: map<string, HelmValuesFile>)
    ensures r == ValuesSelectedById(hv, id)
  {
    r := hv;
    var todo := hv.Keys;
    while todo != {}
      invariant todo <= hv.Keys && r.Keys == hv.Keys
      invariant forall k :: k in hv ==> r[k] == if k in todo then hv[k] else hv[k].(isSelected := hv[k].id == id)
      decreases todo
    {
      var k :| k in todo;
      r := r[k := r[k].(isSelected := r[k].id == id)];
      todo := todo - {k};
    }
  }

  /** The resource-map statements of selectFilePath: clear every selection, then highlight the selected entry's resources. */
  method HighlightSelection(m: map<string, Resource>, entries: seq<FileEntry>, childIds: set<string>) returns (r: map<string, Resource>)
    ensures r == SelectionHighlights(m, entries, childIds)
    ensures KeyedById(m) ==> KeyedById(r)
  {
    r := ClearResourceSelections(m);
    if |entries| > 0 {
      var parent := entries[|entries| - 1];
      var own := IdsInFile(r, parent.filePath);
      r := HighlightResources(r, own);
      if parent.children.Some? {
        r := HighlightResources(r, childIds);
      }
    }
  }

  /** The purge and install loops of setPreviewData, over a copy of the resource map. */
  method ReplacePreviewResources(m: map<string, Resource>, payload: PreviewPayload) returns (rm: map<string, Resource>)
    requires payload.previewResources.Some? ==> KeyedById(payload.previewResources.value)
    ensures rm == PreviewResourceMap(m, payload)
  {
    rm := PurgePreview(m);
    if IsSet(payload.previewResourceId) && payload.previewResources.Some? {
      rm := InstallResources(rm, payload.previewResources.value);
    }
  }

  /** Deletes every resource whose path carries the preview prefix. */
  method PurgePreview(m: map<string, Resource>) returns (rm: map<string, Resource>)
    ensures rm == map id | id in m && !IsPreviewPath(m[id].filePath) :: m[id]
  {
    rm := m;
    var doomed := set id | id in m && IsPreviewPath(m[id].filePath);
    var todo := doomed;
    while todo != {}
      invariant todo <= doomed
      invariant rm == map id | id in m && (id !in doomed || id in todo) :: m[id]
      decreases todo
    {
      var id :| id in todo;
      rm := rm - {id};
      todo := todo - {id};
    }
  }

  /** Stores every incoming resource under its id. */
  method InstallResources(base: map<string, Resource>, incoming: map<string, Resource>) returns (rm: map<string, Resource>)
    requires KeyedById(incoming)
    ensures rm == base + incoming
  {
    rm := base;
    var rest := incoming.Keys;
    while rest != {}
      invariant rest <= incoming.Keys
      invariant rm == base + map k | k in incoming && k !in rest :: incoming[k]
      decreases rest
    {
      var k :| k in rest;
      var r := incoming[k];
      assert r.id == k;
      rm := rm[r.id := r];
      rest := rest - {k};
    }
  }

  // ---------------------------------------------------------------------------
  // The draft
  // ---------------------------------------------------------------------------

  class AppState {
    var resourceMap: map<string, Resource>
    var fileMap: map<string, FileEntry>
    var helmChartMap: map<string, HelmChart>
    var helmValuesMap: map<string, HelmValuesFile>
    var previewLoader: PreviewLoader
    var selectedResourceId: Option<string>
    var selectedPath: Option<string>
    var selectedValuesFileId: Option<string>
    var previewResourceId: Option<string>
    var previewValuesFileId: Option<string>
    var previewType: Option<PreviewType>
    var isSelectingFile: bool
    var isApplyingResource: bool

    /** Every resource is stored under its own id. */
    ghost predicate Valid()
      reads this
    {
      KeyedById(resourceMap)
    }

    function Snapshot(): MainState
      reads this
    {
      MainState(resourceMap, fileMap, helmChartMap, helmValuesMap, previewLoader, selectedResourceId, selectedPath,
                selectedValuesFileId, previewResourceId, previewValuesFileId, previewType, isSelectingFile, isApplyingResource)
    }

    /** initialAppState. */
    constructor ()
      ensures Valid() && Snapshot() == InitialMainState()
    {
      resourceMap := map[];
      fileMap := map[];
      helmChartMap := map[];
      helmValuesMap := map[];
      previewLoader := PreviewLoader(false, None);
      selectedResourceId := None;
      selectedPath := None;
      selectedValuesFileId := None;
      previewResourceId := None;
      previewValuesFileId := None;
      previewType := None;
      isSelectingFile := false;
      isApplyingResource := false;
    }

    method SetPreviewData(payload: PreviewPayload)
      requires Valid()
      requires payload.previewResources.Some? ==> KeyedById(payload.previewResources.value)
      modifies this
      ensures Valid()
      ensures Snapshot() == SetPreviewDataSpec(old(Snapshot()), payload)
    {
      var resourceId: Option<string> := None;
      var valuesFileId: Option<string> := None;

      if IsSet(payload.previewResourceId) {
        var pid := payload.previewResourceId.value;
        if previewType == Some(KustomizationPreview) {
          if pid in resourceMap {
            resourceId := Some(pid);
          }
          // otherwise an unknown preview id is only logged
        }
        if previewType == Some(HelmPreview) {
          if pid in helmValuesMap {
            valuesFileId := Some(pid);
          }
        }
        if previewType == Some(ClusterPreview) {
          resourceId := Some(pid);
        }
      }
      assert PreviewSelection(resourceId, valuesFileId)
          == PreviewSelectionFor(previewType, payload.previewResourceId, resourceMap, helmValuesMap);

      previewResourceId := resourceId;
      previewValuesFileId := valuesFileId;
      resourceMap := ReplacePreviewResources(resourceMap, payload);
    }

    method ClearPreview()
      requires Valid()
      modifies this
      ensures Valid()
      ensures Snapshot() == ClearPreviewSpec(old(Snapshot()))
    {
      SetPreviewData(PreviewPayload(None, None));
      previewType := None;
    }

    method StartPreviewLoader(targetResourceId: string, previewType: PreviewType)
      modifies this
      ensures Snapshot() == old(Snapshot()).(previewLoader := PreviewLoader(true, Some(targetResourceId)),
                                             previewType := Some(previewType))
    {
      this.previewLoader := this.previewLoader.(isLoading := true);
      this.previewLoader := this.previewLoader.(targetResourceId := Some(targetResourceId));
      this.previewType := Some(previewType);
    }

    method StopPreviewLoader()
      modifies this
      ensures Snapshot() == old(Snapshot()).(previewLoader := PreviewLoader(false, None))
    {
      previewLoader := previewLoader.(isLoading := false);
      previewLoader := previewLoader.(targetResourceId := None);
    }

    /** previewKustomization, previewHelmValuesFile and previewCluster fulfilled: install, stop loading, keep the type. */
    method PreviewFulfilled(payload: PreviewPayload)
      requires Valid()
      requires payload.previewResources.Some? ==> KeyedById(payload.previewResources.value)
      modifies this
      ensures Valid()
      ensures Snapshot() == SetPreviewDataSpec(old(Snapshot()), payload).(previewLoader := PreviewLoader(false, None))
    {
      SetPreviewData(payload);
      previewLoader := previewLoader.(isLoading := false);
      previewLoader := previewLoader.(targetResourceId := None);
    }

    /** The three rejected cases: stop loading and forget the preview type. */
    method PreviewRejected()
      modifies this
      ensures Snapshot() == old(Snapshot()).(previewLoader := PreviewLoader(false, None), previewType := None)
    {
      previewLoader := previewLoader.(isLoading := false);
      previewLoader := previewLoader.(targetResourceId := None);
      previewType := None;
    }

    /** setRootFolder fulfilled: the four maps are replaced and selection and preview are reset. */
    method SetRootFolderFulfilled(rm: map<string, Resource>, fm: map<string, FileEntry>,
                                  charts: map<string, HelmChart>, values: map<string, HelmValuesFile>)
      requires KeyedById(rm)
      modifies this
      ensures Valid()
      ensures Snapshot() == old(Snapshot()).(resourceMap := rm, fileMap := fm, helmChartMap := charts, helmValuesMap := values,
                                             previewLoader := PreviewLoader(false, None),
                                             selectedResourceId := None, selectedPath := None,
                                             previewResourceId := None, previewType := None)
    {
      LoadMaps(rm, fm, charts, values);
      StopPreviewLoader();
      selectedResourceId := None;
      selectedPath := None;
      previewResourceId := None;
      previewType := None;
    }

    /** The first statements of setRootFolder fulfilled: the four maps of the payload replace the old ones. */
    method LoadMaps(rm: map<string, Resource>, fm: map<string, FileEntry>,
                    charts: map<string, HelmChart>, values: map<string, HelmValuesFile>)
      requires KeyedById(rm)
      modifies this
      ensures Valid()
      ensures Snapshot() == old(Snapshot()).(resourceMap := rm, fileMap := fm, helmChartMap := charts, helmValuesMap := values)
    {
      resourceMap := rm;
      fileMap := fm;
      helmChartMap := charts;
      helmValuesMap := values;
    }

    method SelectFilePath(path: string, entries: seq<FileEntry>, childIds: set<string>)
      requires Valid()
      modifies this
      ensures Valid()
      ensures Snapshot() == SelectFilePathSpec(old(Snapshot()), path, entries, childIds)
    {
      resourceMap := HighlightSelection(resourceMap, entries, childIds);
      if |entries| > 0 {
        helmValuesMap := SelectValuesFilesByPath(helmValuesMap, path);
      }
      selectedResourceId := None;
      selectedPath := Some(path);
    }

    /** selectFile: an empty path selects nothing. */
    method SelectFile(path: string, entries: seq<FileEntry>, childIds: set<string>)
      requires Valid()
      modifies this
      ensures Valid()
      ensures Snapshot() == if |path| > 0 then SelectFilePathSpec(old(Snapshot()), path, entries, childIds) else old(Snapshot())
    {
      if |path| > 0 {
        SelectFilePath(path, entries, childIds);
      }
    }

    /** selectHelmValuesFile; `ok` is false when the id is unknown and the reducer throws. */
    method SelectHelmValuesFile(id: string, entries: seq<FileEntry>, childIds: set<string>) returns (ok: bool)
      requires Valid()
      modifies this
      ensures Valid()
      ensures ok <==> SelectHelmValuesFileSpec(old(Snapshot()), id, entries, childIds).Some?
      ensures Snapshot() == SelectHelmValuesFileSpec(old(Snapshot()), id, entries, childIds).GetOr(old(Snapshot()))
    {
      // the forEach runs on the draft before the lookup that may throw
      var draft := SelectValuesFilesById(helmValuesMap, id);
      if id !in draft {
        ok := false;
        return;
      }
      ok := true;
      helmValuesMap := draft;
      selectedValuesFileId := if helmValuesMap[id].isSelected then Some(id) else None;
      SelectFilePath(helmValuesMap[id].filePath, entries, childIds);
    }

    method SetSelectingFile(value: bool)
      modifies this
      ensures Snapshot() == old(Snapshot()).(isSelectingFile := value)
    {
      isSelectingFile := value;
    }

    method SetApplyingResource(value: bool)
      modifies this
      ensures Snapshot() == old(Snapshot()).(isApplyingResource := value)
    {
      isApplyingResource := value;
    }
  }
}
