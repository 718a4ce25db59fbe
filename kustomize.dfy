/**
 * The kustomization composer: links each Kustomization resource to the resources its
 * `resources` and `bases` entries name, marks the targets of `patchesStrategicMerge`
 * entries with a "Patch: " prefix, and answers which resources a kustomization reaches.
 *
 * The resource map is threaded through the operations as a value; `order` is the
 * iteration order of the source's resource object (see Wrappers.EnumeratesKeys).
 */
module Kustomize {
  import opened Wrappers
  import opened K8sResource
  import opened AppModel
  import opened Paths

  const KUSTOMIZATION_KIND: string := "Kustomization"
  const KUSTOMIZATION_FILE_NAME: string := "kustomization.yaml"
  /** A name starting with this is never prefixed again. */
  const PATCH_MARK: string := "Patch:"
  /** What a patch target's name is prefixed with. */
  const PATCH_PREFIX: string := "Patch: "

  // ---------------------------------------------------------------------------
  // Classification
  // ---------------------------------------------------------------------------

  predicate IsKustomizationResource(r: Option<Resource>) {
    r.Some? && r.value.kind == KUSTOMIZATION_KIND
  }

  /** A file named kustomization.yaml (any case) that holds exactly one resource, a Kustomization. */
  predicate IsKustomizationFile(fe: FileEntry, m: map<string, Resource>, order: seq<string>) {
    if ToLower(fe.name) == KUSTOMIZATION_FILE_NAME then
      var rs := ResourcesForPath(order, m, fe.filePath);
      |rs| == 1 && IsKustomizationResource(if rs[0] in m then Some(m[rs[0]]) else None)
    else
      false
  }

  /** The one resource of a file, when the file holds exactly one. */
  ghost predicate SoleResource(m: map<string, Resource>, path: string, id: string) {
    && id in m && m[id].filePath == path
    && forall other :: other in m && m[other].filePath == path ==> other == id
  }

  lemma IsKustomizationFileMeaning(fe: FileEntry, m: map<string, Resource>, order: seq<string>)
    requires EnumeratesKeys(order, m)
    ensures IsKustomizationFile(fe, m, order) <==>
      && ToLower(fe.name) == KUSTOMIZATION_FILE_NAME
      && exists id :: SoleResource(m, fe.filePath, id) && m[id].kind == KUSTOMIZATION_KIND
  {
    ResourcesForPathMembers(order, m, fe.filePath);
    if IsKustomizationFile(fe, m, order) {
      SoleResourceFound(fe.filePath, m, order);
    }
    if ToLower(fe.name) == KUSTOMIZATION_FILE_NAME && exists id :: SoleResource(m, fe.filePath, id) && m[id].kind == KUSTOMIZATION_KIND {
      var id :| SoleResource(m, fe.filePath, id) && m[id].kind == KUSTOMIZATION_KIND;
      SoleResourceListed(fe.filePath, m, order, id);
    }
  }

  /** A path listing one resource holds only that one. */
  lemma SoleResourceFound(path: string, m: map<string, Resource>, order: seq<string>)
    requires EnumeratesKeys(order, m)
    requires |ResourcesForPath(order, m, path)| == 1
    ensures SoleResource(m, path, ResourcesForPath(order, m, path)[0])
  {
    var rs := ResourcesForPath(order, m, path);
    ResourcesForPathMembers(order, m, path);
    assert rs[0] in rs;
    forall other | other in m && m[other].filePath == path
      ensures other == rs[0]
    {
      assert other in rs;
    }
  }

  /** A path holding one resource lists exactly that one. */
  lemma SoleResourceListed(path: string, m: map<string, Resource>, order: seq<string>, id: string)
    requires EnumeratesKeys(order, m)
    requires SoleResource(m, path, id)
    ensures ResourcesForPath(order, m, path) == [id]
  {
    var rs := ResourcesForPath(order, m, path);
    ResourcesForPathMembers(order, m, path);
    assert id in rs;
    forall i | 0 <= i < |rs|
      ensures rs[i] == id
    {
      assert rs[i] in rs;
    }
    assert Elements(rs) == {id};
    DistinctCardinality(rs);
  }

  // ---------------------------------------------------------------------------
  // Linking (the source's linkResources) and renaming
  // ---------------------------------------------------------------------------

  /** One call of linkResources: `source` refers to `target` through the scalar `node`. */
  datatype LinkOp = LinkOp(source: string, target: string, node: ScalarNode)

  function OutgoingRef(op: LinkOp): ResourceRef {
    ResourceRef(Outgoing, op.node.value, Some(op.target), Some(op.node.position))
  }

  /** The mirrored reference on the target; a file reference has no position on the target side. */
  function IncomingRef(op: LinkOp): ResourceRef {
    ResourceRef(Incoming, op.node.value, Some(op.source), None)
  }

  function AddRef(r: Resource, ref: ResourceRef): Resource {
    r.(refs := r.refs + [ref])
  }

  /** Appends the outgoing reference on the source, then the incoming one on the target. */
  function Link(m: map<string, Resource>, op: LinkOp): map<string, Resource> {
    if op.source in m && op.target in m then
      var m1 := m[op.source := AddRef(m[op.source], OutgoingRef(op))];
      m1[op.target := AddRef(m1[op.target], IncomingRef(op))]
    else
      m
  }

  function LinkSeq(m: map<string, Resource>, ops: seq<LinkOp>): map<string, Resource> {
    if ops == [] then m else Link(LinkSeq(m, ops[..|ops| - 1]), ops[|ops| - 1])
  }

  /** The references one link adds to resource `x`. */
  function OpRefs(x: string, op: LinkOp): seq<ResourceRef> {
    (if op.source == x then [OutgoingRef(op)] else []) + (if op.target == x then [IncomingRef(op)] else [])
  }

  /** The references a sequence of links adds to resource `x`, in order. */
  function RefsFor(x: string, ops: seq<LinkOp>): seq<ResourceRef> {
    if ops == [] then [] else RefsFor(x, ops[..|ops| - 1]) + OpRefs(x, ops[|ops| - 1])
  }

  /** Links from `source` to each target in turn. */
  function LinkOps(source: string, targets: seq<string>, node: ScalarNode): (ops: seq<LinkOp>)
    ensures |ops| == |targets|
    ensures forall i :: 0 <= i < |targets| ==> ops[i] == LinkOp(source, targets[i], node)
  {
    if targets == [] then [] else LinkOps(source, targets[..|targets| - 1], node) + [LinkOp(source, targets[|targets| - 1], node)]
  }

  /** The name a patch target gets: prefixed unless it already starts with "Patch:". */
  function PatchedName(name: string): string {
    if StartsWith(name, PATCH_MARK) then name else PATCH_PREFIX + name
  }

  lemma PatchedNameIdempotent(name: string)
    ensures StartsWith(PatchedName(name), PATCH_MARK)
    ensures PatchedName(PatchedName(name)) == PatchedName(name)
  {
    if !StartsWith(name, PATCH_MARK) {
      assert (PATCH_PREFIX + name)[..|PATCH_MARK|] == PATCH_MARK;
    }
  }

  function Rename(m: map<string, Resource>, id: string): map<string, Resource> {
    if id in m then m[id := m[id].(name := PatchedName(m[id].name))] else m
  }

  function RenameSeq(m: map<string, Resource>, ids: seq<string>): map<string, Resource> {
    if ids == [] then m else Rename(RenameSeq(m, ids[..|ids| - 1]), ids[|ids| - 1])
  }

  /** Two resource maps agree on everything the composer reads: keys, ids, paths, kinds and contents. */
  ghost predicate SameShape(m1: map<string, Resource>, m2: map<string, Resource>) {
    && m1.Keys == m2.Keys
    && forall k :: k in m1 ==>
         && m2[k].id == m1[k].id && m2[k].filePath == m1[k].filePath
         && m2[k].kind == m1[k].kind && m2[k].content == m1[k].content
  }

  lemma SameShapeTrans(m1: map<string, Resource>, m2: map<string, Resource>, m3: map<string, Resource>)
    requires SameShape(m1, m2) && SameShape(m2, m3)
    ensures SameShape(m1, m3)
  {
  }

  lemma LinkShape(m: map<string, Resource>, op: LinkOp)
    ensures SameShape(m, Link(m, op))
  {
  }

  lemma {:induction false} LinkSeqShape(m: map<string, Resource>, ops: seq<LinkOp>)
    ensures SameShape(m, LinkSeq(m, ops))
  {
    if ops != [] {
      var before := LinkSeq(m, ops[..|ops| - 1]);
      LinkSeqShape(m, ops[..|ops| - 1]);
      LinkShape(before, ops[|ops| - 1]);
      SameShapeTrans(m, before, LinkSeq(m, ops));
    }
  }

  lemma {:induction false} RenameSeqShape(m: map<string, Resource>, ids: seq<string>)
    ensures SameShape(m, RenameSeq(m, ids))
  {
    if ids != [] {
      RenameSeqShape(m, ids[..|ids| - 1]);
    }
  }

  ghost predicate EndpointsIn(ops: seq<LinkOp>, m: map<string, Resource>) {
    forall i :: 0 <= i < |ops| ==> ops[i].source in m && ops[i].target in m
  }

  lemma LinkEffect(m: map<string, Resource>, op: LinkOp, x: string)
    requires op.source in m && op.target in m && x in m
    ensures Link(m, op).Keys == m.Keys
    ensures Link(m, op)[x] == m[x].(refs := m[x].refs + OpRefs(x, op))
  {
  }

  lemma LinkSeqSnoc(m: map<string, Resource>, ops: seq<LinkOp>, op: LinkOp)
    ensures LinkSeq(m, ops + [op]) == Link(LinkSeq(m, ops), op)
  {
    assert (ops + [op])[..|ops|] == ops;
  }

  lemma LinkOpsSnoc(source: string, ts: seq<string>, t: string, node: ScalarNode)
    ensures LinkOps(source, ts + [t], node) == LinkOps(source, ts, node) + [LinkOp(source, t, node)]
  {
    assert (ts + [t])[..|ts|] == ts;
  }

  lemma {:induction false} LinkSeqEffectAt(m: map<string, Resource>, ops: seq<LinkOp>, x: string)
    requires EndpointsIn(ops, m) && x in m
    ensures LinkSeq(m, ops).Keys == m.Keys
    ensures LinkSeq(m, ops)[x] == m[x].(refs := m[x].refs + RefsFor(x, ops))
  {
    if ops != [] {
      var prefix := ops[..|ops| - 1];
      var op := ops[|ops| - 1];
      LinkSeqEffectAt(m, prefix, x);
      var prev := LinkSeq(m, prefix);
      assert op.source in prev && op.target in prev;
      LinkEffect(prev, op, x);
      assert m[x].refs + RefsFor(x, prefix) + OpRefs(x, op) == m[x].refs + RefsFor(x, ops);
    }
  }

  /** Linking only appends references: each resource gets exactly the references the links add to it. */
  lemma LinkSeqEffect(m: map<string, Resource>, ops: seq<LinkOp>)
    requires EndpointsIn(ops, m)
    ensures LinkSeq(m, ops).Keys == m.Keys
    ensures forall x :: x in m ==> LinkSeq(m, ops)[x] == m[x].(refs := m[x].refs + RefsFor(x, ops))
  {
    LinkSeqShape(m, ops);
    forall x | x in m
      ensures LinkSeq(m, ops)[x] == m[x].(refs := m[x].refs + RefsFor(x, ops))
    {
      LinkSeqEffectAt(m, ops, x);
    }
  }

  lemma {:induction false} LinkSeqAppend(m: map<string, Resource>, a: seq<LinkOp>, b: seq<LinkOp>)
    ensures LinkSeq(m, a + b) == LinkSeq(LinkSeq(m, a), b)
  {
    if b == [] {
      assert a + b == a;
    } else {
      assert (a + b)[..|a + b| - 1] == a + b[..|b| - 1];
      LinkSeqAppend(m, a, b[..|b| - 1]);
    }
  }

  lemma {:induction false} RefsForAppend(x: string, a: seq<LinkOp>, b: seq<LinkOp>)
    ensures RefsFor(x, a + b) == RefsFor(x, a) + RefsFor(x, b)
  {
    if b == [] {
      assert a + b == a;
    } else {
      assert (a + b)[..|a + b| - 1] == a + b[..|b| - 1];
      RefsForAppend(x, a, b[..|b| - 1]);
    }
  }

  lemma {:induction false} LinkOpsAppend(source: string, a: seq<string>, b: seq<string>, node: ScalarNode)
    ensures LinkOps(source, a + b, node) == LinkOps(source, a, node) + LinkOps(source, b, node)
  {
  }

  /** Renaming changes only names: a listed resource gets the patched name once, however often it is listed. */
  lemma {:induction false} RenameSeqEffect(m: map<string, Resource>, ids: seq<string>)
    ensures RenameSeq(m, ids).Keys == m.Keys
    ensures forall x :: x in m ==>
      RenameSeq(m, ids)[x] == m[x].(name := if x in ids then PatchedName(m[x].name) else m[x].name)
  {
    if ids != [] {
      var prefix := ids[..|ids| - 1];
      RenameSeqEffect(m, prefix);
      forall x | x in m
        ensures RenameSeq(m, ids)[x] == m[x].(name := if x in ids then PatchedName(m[x].name) else m[x].name)
      {
        PatchedNameIdempotent(m[x].name);
        assert x in ids <==> x in prefix || x == ids[|ids| - 1];
      }
    }
  }

  lemma {:induction false} RenameSeqAppend(m: map<string, Resource>, a: seq<string>, b: seq<string>)
    ensures RenameSeq(m, a + b) == RenameSeq(RenameSeq(m, a), b)
  {
    if b == [] {
      assert a + b == a;
    } else {
      assert (a + b)[..|a + b| - 1] == a + b[..|b| - 1];
      RenameSeqAppend(m, a, b[..|b| - 1]);
    }
  }

  // ---------------------------------------------------------------------------
  // What one entry of a kustomization links to
  // ---------------------------------------------------------------------------

  /** `path.join(path.parse(kustomization.filePath).dir, entry)`. */
  function EntryPath(k: Resource, entry: string): string {
    Join(Dir(k.filePath), entry)
  }

  /** The existing children of a folder that are kustomization files, in folder order. */
  function KustomizationChildren(m: map<string, Resource>, order: seq<string>, fm: map<string, FileEntry>,
                                 folder: FileEntry, children: seq<string>): seq<FileEntry>
  {
    if children == [] then []
    else
      var cp := Join(folder.filePath, children[|children| - 1]);
      KustomizationChildren(m, order, fm, folder, children[..|children| - 1])
        + (if cp in fm && IsKustomizationFile(fm[cp], m, order) then [fm[cp]] else [])
  }

  /** The resources of each file in turn. */
  function FilesTargets(m: map<string, Resource>, order: seq<string>, files: seq<FileEntry>): seq<string> {
    if files == [] then []
    else FilesTargets(m, order, files[..|files| - 1]) + ResourcesForPath(order, m, files[|files| - 1].filePath)
  }

  /** The resources one `resources`/`bases` entry of kustomization `k` links to. */
  function EntryTargets(m: map<string, Resource>, order: seq<string>, fm: map<string, FileEntry>,
                        k: Resource, entry: string): seq<string>
  {
    var path := EntryPath(k, entry);
    if path !in fm then []
    else if fm[path].children.Some? then
      FilesTargets(m, order, KustomizationChildren(m, order, fm, fm[path], fm[path].children.value))
    else
      ResourcesForPath(order, m, fm[path].filePath)
  }

  function EntryOps(m: map<string, Resource>, order: seq<string>, fm: map<string, FileEntry>,
                    kId: string, node: ScalarNode): seq<LinkOp>
    requires kId in m
  {
    LinkOps(kId, EntryTargets(m, order, fm, m[kId], node.value), node)
  }

  lemma {:induction false} KustomizationChildrenMembers(m: map<string, Resource>, order: seq<string>, fm: map<string, FileEntry>,
                                                       folder: FileEntry, children: seq<string>)
    ensures forall f :: f in KustomizationChildren(m, order, fm, folder, children) <==>
      exists c :: c in children && Join(folder.filePath, c) in fm && IsKustomizationFile(fm[Join(folder.filePath, c)], m, order)
                  && f == fm[Join(folder.filePath, c)]
  {
    if children != [] {
      KustomizationChildrenMembers(m, order, fm, folder, children[..|children| - 1]);
      assert children == children[..|children| - 1] + [children[|children| - 1]];
    }
  }

  lemma {:induction false} FilesTargetsMembers(m: map<string, Resource>, order: seq<string>, files: seq<FileEntry>)
    requires Distinct(order)
    ensures forall t :: t in FilesTargets(m, order, files) <==>
      t in order && t in m && exists f :: f in files && m[t].filePath == f.filePath
  {
    if files != [] {
      var prefix := files[..|files| - 1];
      FilesTargetsMembers(m, order, prefix);
      ResourcesForPathMembers(order, m, files[|files| - 1].filePath);
      assert files == prefix + [files[|files| - 1]];
    }
  }

  /** Resource `t` lives in the kustomization file `c` of `folder`. */
  predicate FromKustomizationChild(m: map<string, Resource>, order: seq<string>, fm: map<string, FileEntry>,
                                   folder: FileEntry, c: string, t: string)
    requires t in m
  {
    var cp := Join(folder.filePath, c);
    cp in fm && IsKustomizationFile(fm[cp], m, order) && m[t].filePath == fm[cp].filePath
  }

  /**
   * A missing entry links nothing; a file entry links to every resource of that file;
   * a folder entry links exactly to the Kustomizations of its existing kustomization-file children.
   */
  lemma EntryTargetsMeaning(m: map<string, Resource>, order: seq<string>, fm: map<string, FileEntry>,
                            k: Resource, entry: string)
    requires EnumeratesKeys(order, m)
    ensures EntryPath(k, entry) !in fm ==> EntryTargets(m, order, fm, k, entry) == []
    ensures EntryPath(k, entry) in fm && fm[EntryPath(k, entry)].children.None? ==>
      forall t :: t in EntryTargets(m, order, fm, k, entry) <==> t in m && m[t].filePath == fm[EntryPath(k, entry)].filePath
    ensures EntryPath(k, entry) in fm && fm[EntryPath(k, entry)].children.Some? ==>
      var folder := fm[EntryPath(k, entry)];
      forall t :: t in EntryTargets(m, order, fm, k, entry) <==>
        && t in m && m[t].kind == KUSTOMIZATION_KIND
        && exists c :: c in folder.children.value && FromKustomizationChild(m, order, fm, folder, c, t)
  {
    var path := EntryPath(k, entry);
    if path in fm {
      var folder := fm[path];
      if folder.children.None? {
        ResourcesForPathMembers(order, m, folder.filePath);
      } else {
        var files := KustomizationChildren(m, order, fm, folder, folder.children.value);
        KustomizationChildrenMembers(m, order, fm, folder, folder.children.value);
        FilesTargetsMembers(m, order, files);
        forall t | t in EntryTargets(m, order, fm, k, entry)
          ensures t in m && m[t].kind == KUSTOMIZATION_KIND
          ensures exists c :: c in folder.children.value && FromKustomizationChild(m, order, fm, folder, c, t)
        {
          var f :| f in files && m[t].filePath == f.filePath;
          var c :| c in folder.children.value && Join(folder.filePath, c) in fm
             && IsKustomizationFile(fm[Join(folder.filePath, c)], m, order) && f == fm[Join(folder.filePath, c)];
          IsKustomizationFileMeaning(f, m, order);
        }
        forall t | t in m && exists c :: c in folder.children.value && FromKustomizationChild(m, order, fm, folder, c, t)
          ensures t in EntryTargets(m, order, fm, k, entry)
        {
          var c :| c in folder.children.value && FromKustomizationChild(m, order, fm, folder, c, t);
          assert fm[Join(folder.filePath, c)] in files;
        }
      }
    }
  }

  // ---------------------------------------------------------------------------
  // Whole kustomizations
  // ---------------------------------------------------------------------------

  /** Only kustomizations with at least one of the three composition lists are processed. */
  predicate HasComposition(c: Content) {
    c.resources.Some? || c.bases.Some? || c.patchesStrategicMerge.Some?
  }

  /** The processed kustomizations, in map order. */
  function KustomizationIds(order: seq<string>, m: map<string, Resource>): seq<string> {
    if order == [] then []
    else
      var id := order[|order| - 1];
      KustomizationIds(order[..|order| - 1], m)
        + (if id in m && IsKustomizationResource(Some(m[id])) && HasComposition(m[id].content) then [id] else [])
  }

  lemma {:induction false} KustomizationIdsMembers(order: seq<string>, m: map<string, Resource>)
    ensures forall id :: id in KustomizationIds(order, m) <==>
      id in order && id in m && m[id].kind == KUSTOMIZATION_KIND && HasComposition(m[id].content)
  {
    if order != [] {
      KustomizationIdsMembers(order[..|order| - 1], m);
      assert order == order[..|order| - 1] + [order[|order| - 1]];
    }
  }

  /** The entries a kustomization processes: its `resources`, then its `bases`. */
  function EntryNodes(c: Content): seq<ScalarNode> {
    c.resources.GetOr([]) + (if c.bases.Some? then c.bases.value else [])
  }

  function EntriesOps(m: map<string, Resource>, order: seq<string>, fm: map<string, FileEntry>,
                      kId: string, nodes: seq<ScalarNode>): seq<LinkOp>
    requires kId in m
  {
    if nodes == [] then []
    else EntriesOps(m, order, fm, kId, nodes[..|nodes| - 1]) + EntryOps(m, order, fm, kId, nodes[|nodes| - 1])
  }

  /** The resources renamed by a kustomization's `patchesStrategicMerge` entries; missing files contribute nothing. */
  function PatchTargets(m: map<string, Resource>, order: seq<string>, fm: map<string, FileEntry>,
                        k: Resource, patches: seq<string>): seq<string>
  {
    if patches == [] then []
    else
      var path := EntryPath(k, patches[|patches| - 1]);
      PatchTargets(m, order, fm, k, patches[..|patches| - 1])
        + (if path in fm then ResourcesForPath(order, m, fm[path].filePath) else [])
  }

  lemma {:induction false} PatchTargetsMeaning(m: map<string, Resource>, order: seq<string>, fm: map<string, FileEntry>,
                                              k: Resource, patches: seq<string>)
    requires EnumeratesKeys(order, m)
    ensures forall t :: t in PatchTargets(m, order, fm, k, patches) <==>
      t in m && exists e :: e in patches && EntryPath(k, e) in fm && m[t].filePath == fm[EntryPath(k, e)].filePath
  {
    if patches != [] {
      var prefix := patches[..|patches| - 1];
      var e := patches[|patches| - 1];
      PatchTargetsMeaning(m, order, fm, k, prefix);
      if EntryPath(k, e) in fm {
        ResourcesForPathMembers(order, m, fm[EntryPath(k, e)].filePath);
      }
      assert patches == prefix + [e];
    }
  }

  function ProcessKustomization(m: map<string, Resource>, order: seq<string>, fm: map<string, FileEntry>,
                                kId: string): map<string, Resource>
  {
    if kId !in m then m
    else
      var k := m[kId];
      var linked := LinkSeq(m, EntriesOps(m, order, fm, kId, EntryNodes(k.content)));
      RenameSeq(linked, PatchTargets(m, order, fm, k, k.content.patchesStrategicMerge.GetOr([])))
  }

  function ProcessAll(m: map<string, Resource>, order: seq<string>, fm: map<string, FileEntry>,
                      ks: seq<string>): map<string, Resource>
  {
    if ks == [] then m
    else ProcessKustomization(ProcessAll(m, order, fm, ks[..|ks| - 1]), order, fm, ks[|ks| - 1])
  }

  /** All links made for the kustomizations `ks`, in processing order. */
  function AllOps(m: map<string, Resource>, order: seq<string>, fm: map<string, FileEntry>, ks: seq<string>): seq<LinkOp> {
    if ks == [] then []
    else
      var k := ks[|ks| - 1];
      AllOps(m, order, fm, ks[..|ks| - 1]) + (if k in m then EntriesOps(m, order, fm, k, EntryNodes(m[k].content)) else [])
  }

  /** All patch targets of the kustomizations `ks`. */
  function AllPatchTargets(m: map<string, Resource>, order: seq<string>, fm: map<string, FileEntry>, ks: seq<string>): seq<string> {
    if ks == [] then []
    else
      var k := ks[|ks| - 1];
      AllPatchTargets(m, order, fm, ks[..|ks| - 1])
        + (if k in m then PatchTargets(m, order, fm, m[k], m[k].content.patchesStrategicMerge.GetOr([])) else [])
  }

  // Shape invariance: everything the composer decides depends only on the shape of the map.

  lemma IsKustomizationFileSameShape(fe: FileEntry, m1: map<string, Resource>, m2: map<string, Resource>, order: seq<string>)
    requires SameShape(m1, m2)
    ensures IsKustomizationFile(fe, m1, order) == IsKustomizationFile(fe, m2, order)
  {
    ResourcesForPathSamePaths(order, m1, m2, fe.filePath);
  }

  lemma {:induction false} EntryTargetsSameShape(m1: map<string, Resource>, m2: map<string, Resource>, order: seq<string>,
                                                fm: map<string, FileEntry>, k: Resource, entry: string)
    requires SameShape(m1, m2)
    ensures EntryTargets(m1, order, fm, k, entry) == EntryTargets(m2, order, fm, k, entry)
  {
    var path := EntryPath(k, entry);
    if path in fm {
      ResourcesForPathSamePaths(order, m1, m2, fm[path].filePath);
      if fm[path].children.Some? {
        KustomizationChildrenSameShape(m1, m2, order, fm, fm[path], fm[path].children.value);
        FilesTargetsSameShape(m1, m2, order, KustomizationChildren(m1, order, fm, fm[path], fm[path].children.value));
      }
    }
  }

  lemma {:induction false} KustomizationChildrenSameShape(m1: map<string, Resource>, m2: map<string, Resource>, order: seq<string>,
                                                         fm: map<string, FileEntry>, folder: FileEntry, children: seq<string>)
    requires SameShape(m1, m2)
    ensures KustomizationChildren(m1, order, fm, folder, children) == KustomizationChildren(m2, order, fm, folder, children)
  {
    if children != [] {
      KustomizationChildrenSameShape(m1, m2, order, fm, folder, children[..|children| - 1]);
      var cp := Join(folder.filePath, children[|children| - 1]);
      if cp in fm {
        IsKustomizationFileSameShape(fm[cp], m1, m2, order);
      }
    }
  }

  lemma {:induction false} FilesTargetsSameShape(m1: map<string, Resource>, m2: map<string, Resource>, order: seq<string>, files: seq<FileEntry>)
    requires SameShape(m1, m2)
    ensures FilesTargets(m1, order, files) == FilesTargets(m2, order, files)
  {
    if files != [] {
      FilesTargetsSameShape(m1, m2, order, files[..|files| - 1]);
      ResourcesForPathSamePaths(order, m1, m2, files[|files| - 1].filePath);
    }
  }

  lemma EntryOpsSameShape(m1: map<string, Resource>, m2: map<string, Resource>, order: seq<string>,
                          fm: map<string, FileEntry>, kId: string, node: ScalarNode)
    requires SameShape(m1, m2) && kId in m1
    ensures EntryOps(m1, order, fm, kId, node) == EntryOps(m2, order, fm, kId, node)
  {
    EntryTargetsSameShape(m1, m2, order, fm, m1[kId], node.value);
    assert EntryPath(m1[kId], node.value) == EntryPath(m2[kId], node.value);
    assert EntryTargets(m2, order, fm, m1[kId], node.value) == EntryTargets(m2, order, fm, m2[kId], node.value);
  }

  lemma {:induction false} EntriesOpsSameShape(m1: map<string, Resource>, m2: map<string, Resource>, order: seq<string>,
                                              fm: map<string, FileEntry>, kId: string, nodes: seq<ScalarNode>)
    requires SameShape(m1, m2) && kId in m1
    ensures EntriesOps(m1, order, fm, kId, nodes) == EntriesOps(m2, order, fm, kId, nodes)
  {
    if nodes != [] {
      EntriesOpsSameShape(m1, m2, order, fm, kId, nodes[..|nodes| - 1]);
      EntryTargetsSameShape(m1, m2, order, fm, m1[kId], nodes[|nodes| - 1].value);
      assert EntryPath(m1[kId], nodes[|nodes| - 1].value) == EntryPath(m2[kId], nodes[|nodes| - 1].value);
      assert EntryTargets(m2, order, fm, m1[kId], nodes[|nodes| - 1].value)
          == EntryTargets(m2, order, fm, m2[kId], nodes[|nodes| - 1].value);
    }
  }

  lemma {:induction false} PatchTargetsSameShape(m1: map<string, Resource>, m2: map<string, Resource>, order: seq<string>,
                                                fm: map<string, FileEntry>, k: Resource, patches: seq<string>)
    requires SameShape(m1, m2)
    ensures PatchTargets(m1, order, fm, k, patches) == PatchTargets(m2, order, fm, k, patches)
  {
    if patches != [] {
      PatchTargetsSameShape(m1, m2, order, fm, k, patches[..|patches| - 1]);
      var path := EntryPath(k, patches[|patches| - 1]);
      if path in fm {
        ResourcesForPathSamePaths(order, m1, m2, fm[path].filePath);
      }
    }
  }

  lemma {:induction false} EntriesOpsEndpoints(m: map<string, Resource>, order: seq<string>, fm: map<string, FileEntry>,
                                              kId: string, nodes: seq<ScalarNode>)
    requires EnumeratesKeys(order, m) && kId in m
    ensures EndpointsIn(EntriesOps(m, order, fm, kId, nodes), m)
    ensures forall i :: 0 <= i < |EntriesOps(m, order, fm, kId, nodes)| ==> EntriesOps(m, order, fm, kId, nodes)[i].source == kId
  {
    if nodes != [] {
      EntriesOpsEndpoints(m, order, fm, kId, nodes[..|nodes| - 1]);
      EntryTargetsMeaning(m, order, fm, m[kId], nodes[|nodes| - 1].value);
    }
  }

  lemma {:induction false} AllOpsEndpoints(m: map<string, Resource>, order: seq<string>, fm: map<string, FileEntry>, ks: seq<string>)
    requires EnumeratesKeys(order, m)
    ensures EndpointsIn(AllOps(m, order, fm, ks), m)
    ensures forall i :: 0 <= i < |AllOps(m, order, fm, ks)| ==> AllOps(m, order, fm, ks)[i].source in ks
  {
    if ks != [] {
      var prefix := ks[..|ks| - 1];
      var k := ks[|ks| - 1];
      AllOpsEndpoints(m, order, fm, prefix);
      if k in m {
        EntriesOpsEndpoints(m, order, fm, k, EntryNodes(m[k].content));
      }
      var a := AllOps(m, order, fm, prefix);
      var all := AllOps(m, order, fm, ks);
      forall i | 0 <= i < |all| ensures all[i].source in ks {
        if i < |a| {
          assert all[i] == a[i];
          assert a[i].source in prefix;
        }
      }
    }
  }

  lemma {:induction false} ProcessAllShape(m: map<string, Resource>, order: seq<string>, fm: map<string, FileEntry>, ks: seq<string>)
    ensures SameShape(m, ProcessAll(m, order, fm, ks))
  {
    if ks != [] {
      var prefix := ks[..|ks| - 1];
      var k := ks[|ks| - 1];
      ProcessAllShape(m, order, fm, prefix);
      var prev := ProcessAll(m, order, fm, prefix);
      if k in prev {
        var ops := EntriesOps(prev, order, fm, k, EntryNodes(prev[k].content));
        var linked := LinkSeq(prev, ops);
        LinkSeqShape(prev, ops);
        RenameSeqShape(linked, PatchTargets(prev, order, fm, prev[k], prev[k].content.patchesStrategicMerge.GetOr([])));
        SameShapeTrans(prev, linked, ProcessAll(m, order, fm, ks));
        SameShapeTrans(m, prev, ProcessAll(m, order, fm, ks));
      }
    }
  }

  lemma ProcessKustomizationEffectAt(m: map<string, Resource>, order: seq<string>, fm: map<string, FileEntry>, kId: string, x: string)
    requires EnumeratesKeys(order, m) && kId in m && x in m
    ensures x in ProcessKustomization(m, order, fm, kId)
    ensures
      var ops := EntriesOps(m, order, fm, kId, EntryNodes(m[kId].content));
      var ts := PatchTargets(m, order, fm, m[kId], m[kId].content.patchesStrategicMerge.GetOr([]));
      ProcessKustomization(m, order, fm, kId)[x]
        == m[x].(refs := m[x].refs + RefsFor(x, ops), name := if x in ts then PatchedName(m[x].name) else m[x].name)
  {
    var ops := EntriesOps(m, order, fm, kId, EntryNodes(m[kId].content));
    EntriesOpsEndpoints(m, order, fm, kId, EntryNodes(m[kId].content));
    LinkSeqEffectAt(m, ops, x);
    var linked := LinkSeq(m, ops);
    var ts := PatchTargets(m, order, fm, m[kId], m[kId].content.patchesStrategicMerge.GetOr([]));
    RenameSeqEffect(linked, ts);
  }

  lemma {:induction false} ProcessAllEffectAt(m: map<string, Resource>, order: seq<string>, fm: map<string, FileEntry>,
                                             ks: seq<string>, x: string)
    requires EnumeratesKeys(order, m) && x in m
    ensures x in ProcessAll(m, order, fm, ks)
    ensures ProcessAll(m, order, fm, ks)[x]
      == m[x].(refs := m[x].refs + RefsFor(x, AllOps(m, order, fm, ks)),
               name := if x in AllPatchTargets(m, order, fm, ks) then PatchedName(m[x].name) else m[x].name)
  {
    assert x in ProcessAll(m, order, fm, ks) by { ProcessAllShape(m, order, fm, ks); }
    if ks != [] {
      var prefix := ks[..|ks| - 1];
      var k := ks[|ks| - 1];
      ProcessAllEffectAt(m, order, fm, prefix, x);
      var prev := ProcessAll(m, order, fm, prefix);
      if k in m {
        ProcessAllShape(m, order, fm, prefix);
        ProcessAllStepAt(m, order, fm, prev, k, x, AllOps(m, order, fm, prefix), AllPatchTargets(m, order, fm, prefix));
        assert AllOps(m, order, fm, ks) == AllOps(m, order, fm, prefix) + EntriesOps(m, order, fm, k, EntryNodes(m[k].content));
        assert AllPatchTargets(m, order, fm, ks)
            == AllPatchTargets(m, order, fm, prefix) + PatchTargets(m, order, fm, m[k], m[k].content.patchesStrategicMerge.GetOr([]));
      } else {
        assert k !in prev by { ProcessAllShape(m, order, fm, prefix); }
        assert ProcessAll(m, order, fm, ks) == prev;
        assert AllOps(m, order, fm, ks) == AllOps(m, order, fm, prefix);
        assert AllPatchTargets(m, order, fm, ks) == AllPatchTargets(m, order, fm, prefix);
      }
    }
  }

  /** One step of ProcessAllEffectAt: processing kustomization k after links `before` and renames `renamed`. */
  lemma ProcessAllStepAt(m: map<string, Resource>, order: seq<string>, fm: map<string, FileEntry>,
                         prev: map<string, Resource>, k: string, x: string, before: seq<LinkOp>, renamed: seq<string>)
    requires EnumeratesKeys(order, m) && x in m && k in m && SameShape(m, prev)
    requires prev[x] == m[x].(refs := m[x].refs + RefsFor(x, before),
                              name := if x in renamed then PatchedName(m[x].name) else m[x].name)
    ensures
      var ops := EntriesOps(m, order, fm, k, EntryNodes(m[k].content));
      var ts := PatchTargets(m, order, fm, m[k], m[k].content.patchesStrategicMerge.GetOr([]));
      && x in ProcessKustomization(prev, order, fm, k)
      && ProcessKustomization(prev, order, fm, k)[x]
           == m[x].(refs := m[x].refs + RefsFor(x, before + ops),
                    name := if x in renamed + ts then PatchedName(m[x].name) else m[x].name)
  {
    var nodes := EntryNodes(m[k].content);
    var patches := m[k].content.patchesStrategicMerge.GetOr([]);
    var ops := EntriesOps(m, order, fm, k, nodes);
    var ts := PatchTargets(m, order, fm, m[k], patches);
    assert EntriesOps(prev, order, fm, k, EntryNodes(prev[k].content)) == ops by {
      EntriesOpsSameShape(m, prev, order, fm, k, nodes);
    }
    assert PatchTargets(prev, order, fm, prev[k], prev[k].content.patchesStrategicMerge.GetOr([])) == ts by {
      PatchTargetsSameShape(m, prev, order, fm, m[k], patches);
      PatchTargetsSameK(prev, order, fm, m[k], prev[k], patches);
    }
    ProcessKustomizationEffectAt(prev, order, fm, k, x);
    ComposeUpdates(m[x], prev[x], ProcessKustomization(prev, order, fm, k)[x],
                   RefsFor(x, before), RefsFor(x, ops), x in renamed, x in ts);
    RefsForAppend(x, before, ops);
    assert x in renamed + ts <==> x in renamed || x in ts;
  }

  /** Two rounds of linking and renaming compose into one. */
  lemma ComposeUpdates(mx: Resource, px: Resource, res: Resource, a: seq<ResourceRef>, b: seq<ResourceRef>, inA: bool, inB: bool)
    requires px == mx.(refs := mx.refs + a, name := if inA then PatchedName(mx.name) else mx.name)
    requires res == px.(refs := px.refs + b, name := if inB then PatchedName(px.name) else px.name)
    ensures res == mx.(refs := mx.refs + (a + b), name := if inA || inB then PatchedName(mx.name) else mx.name)
  {
    PatchedNameIdempotent(mx.name);
    assert mx.refs + a + b == mx.refs + (a + b);
  }

  /**
   * processKustomizations in one statement: the map keeps its keys, ids, paths, kinds and contents;
   * every resource gains exactly the references of all the links made, in order; and every patch
   * target is renamed once.
   */
  lemma ProcessAllEffect(m: map<string, Resource>, order: seq<string>, fm: map<string, FileEntry>, ks: seq<string>)
    requires EnumeratesKeys(order, m)
    ensures ProcessAll(m, order, fm, ks).Keys == m.Keys
    ensures forall x :: x in m ==>
      ProcessAll(m, order, fm, ks)[x] == m[x].(refs := m[x].refs + RefsFor(x, AllOps(m, order, fm, ks)),
               name := if x in AllPatchTargets(m, order, fm, ks) then PatchedName(m[x].name) else m[x].name)
  {
    ProcessAllShape(m, order, fm, ks);
    forall x | x in m
      ensures ProcessAll(m, order, fm, ks)[x] == m[x].(refs := m[x].refs + RefsFor(x, AllOps(m, order, fm, ks)),
               name := if x in AllPatchTargets(m, order, fm, ks) then PatchedName(m[x].name) else m[x].name)
    {
      ProcessAllEffectAt(m, order, fm, ks, x);
    }
  }

  /** Patch targets depend on the kustomization only through its file path. */
  lemma {:induction false} PatchTargetsSameK(m: map<string, Resource>, order: seq<string>, fm: map<string, FileEntry>,
                                            k1: Resource, k2: Resource, patches: seq<string>)
    requires k1.filePath == k2.filePath
    ensures PatchTargets(m, order, fm, k1, patches) == PatchTargets(m, order, fm, k2, patches)
  {
    if patches != [] {
      PatchTargetsSameK(m, order, fm, k1, k2, patches[..|patches| - 1]);
    }
  }

  /**
   * Every reference the composer adds is well formed and resolved; incoming ones carry no
   * position; and only the processed kustomizations gain outgoing references.
   */
  lemma AddedRefsAreWellFormed(m: map<string, Resource>, order: seq<string>, fm: map<string, FileEntry>, x: string)
    requires EnumeratesKeys(order, m)
    ensures var ks := KustomizationIds(order, m);
      forall ref :: ref in RefsFor(x, AllOps(m, order, fm, ks)) ==>
        && WellFormedRef(ref) && ref.refType != UnsatisfiedOutgoing
        && ref.targetResourceId.Some? && ref.targetResourceId.value in m
        && (ref.refType == Incoming ==> ref.position.None? && ref.targetResourceId.value in ks)
        && (ref.refType == Outgoing ==> x in ks && ref.position.Some?)
  {
    var ks := KustomizationIds(order, m);
    AllOpsEndpoints(m, order, fm, ks);
    RefsForShape(x, AllOps(m, order, fm, ks), m, ks);
  }

  lemma {:induction false} RefsForShape(x: string, ops: seq<LinkOp>, m: map<string, Resource>, ks: seq<string>)
    requires EndpointsIn(ops, m)
    requires forall i :: 0 <= i < |ops| ==> ops[i].source in ks
    ensures forall ref :: ref in RefsFor(x, ops) ==>
        && WellFormedRef(ref) && ref.refType != UnsatisfiedOutgoing
        && ref.targetResourceId.Some? && ref.targetResourceId.value in m
        && (ref.refType == Incoming ==> ref.position.None? && ref.targetResourceId.value in ks)
        && (ref.refType == Outgoing ==> x in ks && ref.position.Some?)
  {
    if ops != [] {
      RefsForShape(x, ops[..|ops| - 1], m, ks);
    }
  }

  lemma {:induction false} AllOpsWithoutEntries(m: map<string, Resource>, order: seq<string>, fm: map<string, FileEntry>, ks: seq<string>)
    requires forall k :: k in ks && k in m ==> m[k].content.resources.None? && m[k].content.bases.None?
    ensures AllOps(m, order, fm, ks) == []
  {
    if ks != [] {
      AllOpsWithoutEntries(m, order, fm, ks[..|ks| - 1]);
      var k := ks[|ks| - 1];
      if k in m {
        assert EntryNodes(m[k].content) == [];
      }
    }
  }

  /** Kustomizations that only list patches gain no references; the map keeps its resources. */
  lemma PatchesOnlyKeepRefs(m: map<string, Resource>, order: seq<string>, fm: map<string, FileEntry>)
    requires EnumeratesKeys(order, m)
    requires forall k :: k in m ==> m[k].content.resources.None? && m[k].content.bases.None?
    ensures ProcessAll(m, order, fm, KustomizationIds(order, m)).Keys == m.Keys
    ensures forall x :: x in m ==> ProcessAll(m, order, fm, KustomizationIds(order, m))[x].refs == m[x].refs
  {
    var ks := KustomizationIds(order, m);
    ProcessAllEffect(m, order, fm, ks);
    AllOpsWithoutEntries(m, order, fm, ks);
  }

  /**
   * The multiple-patches scenario: a single kustomization that lists two patch files and
   * already holds two references still is the only resource afterwards, with two references.
   */
  lemma MultiplePatchesKeepsTwoRefs(ref1: ResourceRef, ref2: ResourceRef, fm: map<string, FileEntry>)
    ensures
      var content := Content(KUSTOMIZATION_KIND, "kustomize.config.k8s.io/v1beta1", None, None, None,
                             Some(["patch-a.yaml", "patch-b.yaml"]));
      var k := Resource("k", "/kustomization.yaml", "kustomization", KUSTOMIZATION_KIND, "kustomize.config.k8s.io/v1beta1",
                        None, false, false, "", false, content, [ref1, ref2], None);
      var m := map["k" := k];
      var r := ProcessAll(m, ["k"], fm, KustomizationIds(["k"], m));
      |r.Keys| == 1 && "k" in r && |r["k"].refs| == 2
  {
    var content := Content(KUSTOMIZATION_KIND, "kustomize.config.k8s.io/v1beta1", None, None, None,
                           Some(["patch-a.yaml", "patch-b.yaml"]));
    var k := Resource("k", "/kustomization.yaml", "kustomization", KUSTOMIZATION_KIND, "kustomize.config.k8s.io/v1beta1",
                      None, false, false, "", false, content, [ref1, ref2], None);
    var m := map["k" := k];
    assert EnumeratesKeys(["k"], m);
    PatchesOnlyKeepRefs(m, ["k"], fm);
    assert m.Keys == {"k"};
  }

  // ---------------------------------------------------------------------------
  // The imperative operations
  // ---------------------------------------------------------------------------

  /** linkParentKustomization: links the kustomization to every resource of the file. */
  method LinkParentKustomization(m: map<string, Resource>, order: seq<string>, fe: FileEntry, kId: string, node: ScalarNode)
    returns (r: map<string, Resource>)
    ensures r == LinkSeq(m, LinkOps(kId, ResourcesForPath(order, m, fe.filePath), node))
  {
    var targets := ResourcesForPath(order, m, fe.filePath);
    r := m;
    ghost var ops: seq<LinkOp> := [];
    var i := 0;
    while i < |targets|
      invariant 0 <= i <= |targets|
      invariant ops == LinkOps(kId, targets[..i], node)
      invariant r == LinkSeq(m, ops)
    {
      var op := LinkOp(kId, targets[i], node);
      assert targets[..i + 1] == targets[..i] + [targets[i]];
      LinkOpsSnoc(kId, targets[..i], targets[i], node);
      LinkSeqSnoc(m, ops, op);
      r := Link(r, op);
      ops := ops + [op];
      i := i + 1;
    }
    assert targets[..|targets|] == targets;
  }

  /** processKustomizationResource: one `resources`/`bases` entry. */
  method ProcessKustomizationResource(m: map<string, Resource>, order: seq<string>, fm: map<string, FileEntry>,
                                      kId: string, node: ScalarNode)
    returns (r: map<string, Resource>)
    requires kId in m
    ensures r == LinkSeq(m, EntryOps(m, order, fm, kId, node))
  {
    var kpath := EntryPath(m[kId], node.value);
    if kpath in fm {
      var fe := fm[kpath];
      if fe.children.Some? {
        // the existing children that are kustomization files
        var children := fe.children.value;
        var files: seq<FileEntry> := [];
        var i := 0;
        while i < |children|
          invariant 0 <= i <= |children|
          invariant files == KustomizationChildren(m, order, fm, fe, children[..i])
        {
          var cp := Join(fe.filePath, children[i]);
          assert children[..i + 1][..i] == children[..i];
          if cp in fm && IsKustomizationFile(fm[cp], m, order) {
            files := files + [fm[cp]];
          }
          i := i + 1;
        }
        assert children[..|children|] == children;
        // link each of them
        r := m;
        var j := 0;
        while j < |files|
          invariant 0 <= j <= |files|
          invariant r == LinkSeq(m, LinkOps(kId, FilesTargets(m, order, files[..j]), node))
        {
          LinkSeqShape(m, LinkOps(kId, FilesTargets(m, order, files[..j]), node));
          ResourcesForPathSamePaths(order, r, m, files[j].filePath);
          var next := LinkParentKustomization(r, order, files[j], kId, node);
          var done := FilesTargets(m, order, files[..j]);
          var more := ResourcesForPath(order, m, files[j].filePath);
          assert files[..j + 1][..j] == files[..j];
          assert FilesTargets(m, order, files[..j + 1]) == done + more;
          LinkOpsAppend(kId, done, more, node);
          LinkSeqAppend(m, LinkOps(kId, done, node), LinkOps(kId, more, node));
          r := next;
          j := j + 1;
        }
        assert files[..|files|] == files;
      } else {
        r := LinkParentKustomization(m, order, fe, kId, node);
      }
    } else {
      r := m;
    }
  }

  /** Prefixes the names of the resources `ids` with "Patch: ", unless they already carry the mark. */
  method MarkPatched(m: map<string, Resource>, ids: seq<string>) returns (r: map<string, Resource>)
    ensures r == RenameSeq(m, ids)
  {
    r := m;
    var t := 0;
    while t < |ids|
      invariant 0 <= t <= |ids|
      invariant r == RenameSeq(m, ids[..t])
    {
      assert ids[..t + 1][..t] == ids[..t];
      var id := ids[t];
      if id in r {
        var res := r[id];
        if !StartsWith(res.name, PATCH_MARK) {
          r := r[id := res.(name := PATCH_PREFIX + res.name)];
        }
      }
      t := t + 1;
    }
    assert ids[..|ids|] == ids;
  }

  /** The `resources` and `bases` loop of processKustomizations for one kustomization. */
  method ProcessEntries(m: map<string, Resource>, order: seq<string>, fm: map<string, FileEntry>, kId: string,
                        nodes: seq<ScalarNode>)
    returns (r: map<string, Resource>)
    requires kId in m
    ensures r == LinkSeq(m, EntriesOps(m, order, fm, kId, nodes))
  {
    r := m;
    ghost var ops: seq<LinkOp> := [];
    var i := 0;
    while i < |nodes|
      invariant 0 <= i <= |nodes|
      invariant ops == EntriesOps(m, order, fm, kId, nodes[..i])
      invariant r == LinkSeq(m, ops)
    {
      LinkSeqShape(m, ops);
      EntryOpsSameShape(m, r, order, fm, kId, nodes[i]);
      var next := ProcessKustomizationResource(r, order, fm, kId, nodes[i]);
      assert nodes[..i + 1][..i] == nodes[..i];
      LinkSeqAppend(m, ops, EntryOps(m, order, fm, kId, nodes[i]));
      r := next;
      ops := ops + EntryOps(m, order, fm, kId, nodes[i]);
      i := i + 1;
    }
    assert nodes[..|nodes|] == nodes;
  }

  lemma ProcessAllKeys(m: map<string, Resource>, order: seq<string>, fm: map<string, FileEntry>, ks: seq<string>)
    ensures ProcessAll(m, order, fm, ks).Keys == m.Keys
  {
    ProcessAllShape(m, order, fm, ks);
  }

  lemma ProcessAllSnoc(m: map<string, Resource>, order: seq<string>, fm: map<string, FileEntry>, ks: seq<string>, k: string)
    ensures ProcessAll(m, order, fm, ks + [k]) == ProcessKustomization(ProcessAll(m, order, fm, ks), order, fm, k)
  {
    assert (ks + [k])[..|ks|] == ks;
  }

  /** The body of processKustomizations for one kustomization: its entries, then its patches. */
  method ProcessOneKustomization(m: map<string, Resource>, order: seq<string>, fm: map<string, FileEntry>, kId: string)
    returns (r: map<string, Resource>)
    requires kId in m
    ensures r == ProcessKustomization(m, order, fm, kId)
  {
    var k := m[kId];
    var nodes := k.content.resources.GetOr([]);
    if k.content.bases.Some? {
      nodes := nodes + k.content.bases.value;
    }
    assert nodes == EntryNodes(k.content);
    r := ProcessEntries(m, order, fm, kId, nodes);
    LinkSeqShape(m, EntriesOps(m, order, fm, kId, nodes));
    r := ApplyPatches(r, m, order, fm, k, k.content.patchesStrategicMerge.GetOr([]));
  }

  /** The `patchesStrategicMerge` loop of processKustomizations; `m` is the map the targets are looked up in. */
  method ApplyPatches(linked: map<string, Resource>, ghost m: map<string, Resource>, order: seq<string>,
                      fm: map<string, FileEntry>, k: Resource, patches: seq<string>)
    returns (r: map<string, Resource>)
    requires SameShape(m, linked)
    ensures r == RenameSeq(linked, PatchTargets(m, order, fm, k, patches))
  {
    r := linked;
    var j := 0;
    while j < |patches|
      invariant 0 <= j <= |patches|
      invariant r == RenameSeq(linked, PatchTargets(m, order, fm, k, patches[..j]))
    {
      var path := EntryPath(k, patches[j]);
      ghost var done := PatchTargets(m, order, fm, k, patches[..j]);
      assert patches[..j + 1][..j] == patches[..j];
      assert PatchTargets(m, order, fm, k, patches[..j + 1])
          == done + (if path in fm then ResourcesForPath(order, m, fm[path].filePath) else []);
      if path in fm {
        RenameSeqShape(linked, done);
        SameShapeTrans(m, linked, r);
        ResourcesForPathSamePaths(order, r, m, fm[path].filePath);
        var rs := ResourcesForPath(order, r, fm[path].filePath);
        RenameSeqAppend(linked, done, rs);
        r := MarkPatched(r, rs);
      } else {
        assert done + [] == done;
      }
      // a missing patch file is only reported; nothing changes
      j := j + 1;
    }
    assert patches[..|patches|] == patches;
  }

  /** The loop of processKustomizations over the given kustomizations, in order. */
  method ProcessEach(m: map<string, Resource>, order: seq<string>, fm: map<string, FileEntry>, ks: seq<string>)
    returns (r: map<string, Resource>)
    requires forall j :: 0 <= j < |ks| ==> ks[j] in m
    ensures r == ProcessAll(m, order, fm, ks)
  {
    r := m;
    ghost var done: seq<string> := [];
    var i := 0;
    while i < |ks|
      invariant 0 <= i <= |ks|
      invariant done == ks[..i]
      invariant r == ProcessAll(m, order, fm, done)
    {
      ProcessAllKeys(m, order, fm, done);
      ProcessAllSnoc(m, order, fm, done, ks[i]);
      r := ProcessOneKustomization(r, order, fm, ks[i]);
      done := done + [ks[i]];
      i := i + 1;
    }
    assert done == ks;
  }

  /** processKustomizations: every kustomization with a composition list, in map order. */
  method ProcessKustomizations(m: map<string, Resource>, order: seq<string>, fm: map<string, FileEntry>)
    returns (r: map<string, Resource>)
    requires EnumeratesKeys(order, m)
    ensures r == ProcessAll(m, order, fm, KustomizationIds(order, m))
  {
    var ks := KustomizationIds(order, m);
    assert forall j :: 0 <= j < |ks| ==> ks[j] in m by {
      KustomizationIdsMembers(order, m);
    }
    r := ProcessEach(m, order, fm, ks);
  }

  // ---------------------------------------------------------------------------
  // getKustomizationRefs
  // ---------------------------------------------------------------------------

  /** The references followed: outgoing always, incoming only when the parent is asked for. */
  predicate Followed(r: ResourceRef, selectParent: bool) {
    r.refType == Outgoing || (selectParent && r.refType == Incoming)
  }

  /** An outgoing reference to an existing Kustomization: the only kind the query recurses through. */
  predicate Descends(m: map<string, Resource>, r: ResourceRef) {
    && r.refType == Outgoing && IsSet(r.targetResourceId)
    && r.targetResourceId.value in m && m[r.targetResourceId.value].kind == KUSTOMIZATION_KIND
  }

  /**
   * A set of kustomization ids closed under outgoing references to Kustomizations, and a level
   * that decreases along those references inside the set.
   */
  datatype Ranking = Ranking(within: set<string>, level: string -> nat)

  /**
   * No cycle of outgoing references to Kustomizations is reachable from `rank.within`: what such
   * a reference names from inside the set is in the set too, and at a lower level. Cycles the
   * set does not reach are allowed.
   */
  ghost predicate KustomizationDag(m: map<string, Resource>, rank: Ranking) {
    forall id, r :: id in rank.within && id in m && r in m[id].refs && Descends(m, r) ==>
      r.targetResourceId.value in rank.within && rank.level(r.targetResourceId.value) < rank.level(id)
  }

  /** Following reference `r` reaches `t`: its target directly, or what a nested Kustomization reaches. */
  ghost predicate ReachesThrough(m: map<string, Resource>, r: ResourceRef, selectParent: bool, rank: Ranking, t: string)
    requires KustomizationDag(m, rank) && (Descends(m, r) ==> r.targetResourceId.value in rank.within)
  {
    && Followed(r, selectParent) && IsSet(r.targetResourceId) && r.targetResourceId.value in m
    && (t == r.targetResourceId.value || (Descends(m, r) && t in KustomizationRefs(m, r.targetResourceId.value, false, rank)))
  }

  function KustomizationRefs(m: map<string, Resource>, kId: string, selectParent: bool, ghost rank: Ranking): seq<string>
    requires KustomizationDag(m, rank) && kId in rank.within
    decreases rank.level(kId), if kId in m then |m[kId].refs| + 1 else 0
  {
    if kId in m then ReachedVia(m, kId, m[kId].refs, selectParent, rank) else []
  }

  /** What the references `refs` (a prefix of kustomization kId's references) contribute, in order. */
  function ReachedVia(m: map<string, Resource>, kId: string, refs: seq<ResourceRef>, selectParent: bool,
                      ghost rank: Ranking): seq<string>
    requires KustomizationDag(m, rank) && kId in rank.within && kId in m && refs <= m[kId].refs
    decreases rank.level(kId), |refs|
  {
    if refs == [] then []
    else
      var r := refs[|refs| - 1];
      assert r == m[kId].refs[|refs| - 1];
      var before := ReachedVia(m, kId, refs[..|refs| - 1], selectParent, rank);
      if Followed(r, selectParent) && IsSet(r.targetResourceId) && r.targetResourceId.value in m then
        var t := r.targetResourceId.value;
        before + [t] + (if m[t].kind == KUSTOMIZATION_KIND && r.refType == Outgoing then KustomizationRefs(m, t, false, rank) else [])
      else
        before
  }

  /** getKustomizationRefs: the resources a kustomization links to, including those of nested kustomizations. */
  method GetKustomizationRefs(m: map<string, Resource>, kId: string, selectParent: bool, ghost rank: Ranking)
    returns (linked: seq<string>)
    requires KustomizationDag(m, rank) && kId in rank.within
    ensures linked == KustomizationRefs(m, kId, selectParent, rank)
    decreases rank.level(kId)
  {
    linked := [];
    if kId in m {
      var refs := m[kId].refs;
      var i := 0;
      while i < |refs|
        invariant 0 <= i <= |refs|
        invariant linked == ReachedVia(m, kId, refs[..i], selectParent, rank)
      {
        var r := refs[i];
        assert refs[..i + 1][..i] == refs[..i];
        if Followed(r, selectParent) && IsSet(r.targetResourceId) {
          var t := r.targetResourceId.value;
          if t in m {
            linked := linked + [t];
            if m[t].kind == KUSTOMIZATION_KIND && r.refType == Outgoing {
              assert r in m[kId].refs;
              var nested := GetKustomizationRefs(m, t, false, rank);
              linked := linked + nested;
            }
          }
        }
        i := i + 1;
      }
      assert refs[..|refs|] == refs;
    }
  }

  /** The last reference's contribution, one step of ReachedVia. */
  lemma ReachedViaLast(m: map<string, Resource>, kId: string, refs: seq<ResourceRef>, selectParent: bool,
                       rank: Ranking, t: string)
    requires KustomizationDag(m, rank) && kId in rank.within && kId in m && refs <= m[kId].refs && refs != []
    ensures t in ReachedVia(m, kId, refs, selectParent, rank) <==>
      t in ReachedVia(m, kId, refs[..|refs| - 1], selectParent, rank) || ReachesThrough(m, refs[|refs| - 1], selectParent, rank, t)
  {
  }

  lemma {:induction false} ReachedViaMeaning(m: map<string, Resource>, kId: string, refs: seq<ResourceRef>, selectParent: bool,
                                            rank: Ranking, t: string)
    requires KustomizationDag(m, rank) && kId in rank.within && kId in m && refs <= m[kId].refs
    ensures t in ReachedVia(m, kId, refs, selectParent, rank) <==>
      exists r :: r in refs && ReachesThrough(m, r, selectParent, rank, t)
    decreases |refs|
  {
    if refs != [] {
      var prefix := refs[..|refs| - 1];
      var last := refs[|refs| - 1];
      ReachedViaMeaning(m, kId, prefix, selectParent, rank, t);
      ReachedViaLast(m, kId, refs, selectParent, rank, t);
      assert refs == prefix + [last];
      if exists r :: r in refs && ReachesThrough(m, r, selectParent, rank, t) {
        var r :| r in refs && ReachesThrough(m, r, selectParent, rank, t);
        if r != last {
          assert r in prefix;
        }
      }
    }
  }

  /**
   * A resource is reached exactly when a followed reference of the kustomization names it and it
   * exists, or it is reached (without parents) from a Kustomization named by an outgoing reference.
   */
  lemma KustomizationRefsMeaning(m: map<string, Resource>, kId: string, selectParent: bool, rank: Ranking, t: string)
    requires KustomizationDag(m, rank) && kId in rank.within
    ensures t in KustomizationRefs(m, kId, selectParent, rank) <==>
      kId in m && exists r :: r in m[kId].refs && ReachesThrough(m, r, selectParent, rank, t)
  {
    if kId in m {
      ReachedViaMeaning(m, kId, m[kId].refs, selectParent, rank, t);
    }
  }


  /** Only existing resources are ever returned. */
  lemma {:induction false} KustomizationRefsExist(m: map<string, Resource>, kId: string, selectParent: bool, rank: Ranking)
    requires KustomizationDag(m, rank) && kId in rank.within
    ensures forall t :: t in KustomizationRefs(m, kId, selectParent, rank) ==> t in m
    decreases rank.level(kId)
  {
    forall t | t in KustomizationRefs(m, kId, selectParent, rank) ensures t in m {
      KustomizationRefsMeaning(m, kId, selectParent, rank, t);
      var r :| r in m[kId].refs && ReachesThrough(m, r, selectParent, rank, t);
      if t != r.targetResourceId.value {
        KustomizationRefsExist(m, r.targetResourceId.value, false, rank);
      }
    }
  }

  /** Asking for parents only adds resources. */
  lemma SelectParentWidens(m: map<string, Resource>, kId: string, rank: Ranking)
    requires KustomizationDag(m, rank) && kId in rank.within
    ensures forall t :: t in KustomizationRefs(m, kId, false, rank) ==> t in KustomizationRefs(m, kId, true, rank)
  {
    forall t | t in KustomizationRefs(m, kId, false, rank) ensures t in KustomizationRefs(m, kId, true, rank) {
      KustomizationRefsMeaning(m, kId, false, rank, t);
      KustomizationRefsMeaning(m, kId, true, rank, t);
    }
  }

  /** Without parents, an incoming reference contributes nothing: a kustomization with only incoming references reaches nothing. */
  lemma IncomingOnlyReachesNothing(m: map<string, Resource>, kId: string, rank: Ranking)
    requires KustomizationDag(m, rank) && kId in rank.within
    requires kId in m && forall r :: r in m[kId].refs ==> r.refType == Incoming
    ensures KustomizationRefs(m, kId, false, rank) == []
  {
    if KustomizationRefs(m, kId, false, rank) != [] {
      var t := KustomizationRefs(m, kId, false, rank)[0];
      KustomizationRefsMeaning(m, kId, false, rank, t);
    }
  }

  // ---------------------------------------------------------------------------
  // getKustomizationRefs as written, on any resource map
  // ---------------------------------------------------------------------------

  /**
   * getKustomizationRefs as written, on any resource map, allowed at most `depth` nested calls:
   * `None` when the recursion would go deeper. The code keeps no record of the kustomizations
   * it is already inside, so a cycle of outgoing references makes it recurse without end.
   */
  function RefsWithin(m: map<string, Resource>, kId: string, selectParent: bool, depth: nat): Option<seq<string>>
    decreases depth, if kId in m then |m[kId].refs| + 1 else 0
  {
    if kId in m then ReachedWithin(m, kId, m[kId].refs, selectParent, depth) else Some([])
  }

  function ReachedWithin(m: map<string, Resource>, kId: string, refs: seq<ResourceRef>, selectParent: bool, depth: nat): Option<seq<string>>
    requires kId in m && refs <= m[kId].refs
    decreases depth, |refs|
  {
    if refs == [] then Some([])
    else
      match ReachedWithin(m, kId, refs[..|refs| - 1], selectParent, depth)
      case None => None
      case Some(before) =>
        var r := refs[|refs| - 1];
        if Followed(r, selectParent) && IsSet(r.targetResourceId) && r.targetResourceId.value in m then
          var t := r.targetResourceId.value;
          if m[t].kind == KUSTOMIZATION_KIND && r.refType == Outgoing then
            if depth == 0 then None
            else
              match RefsWithin(m, t, false, depth - 1)
              case None => None
              case Some(nested) => Some(before + [t] + nested)
          else Some(before + [t])
        else Some(before)
  }

  /** Kustomizations each of which has an outgoing reference to a Kustomization of the set. */
  ghost predicate OutgoingCycle(m: map<string, Resource>, cycle: set<string>) {
    forall k {:trigger PointsInto(m, k, cycle)} :: k in cycle ==> PointsInto(m, k, cycle)
  }

  /** Kustomization `k` has an outgoing reference to a member of `cycle`. */
  ghost predicate PointsInto(m: map<string, Resource>, k: string, cycle: set<string>) {
    && k in m && m[k].kind == KUSTOMIZATION_KIND
    && exists r :: r in m[k].refs && r.refType == Outgoing && IsSet(r.targetResourceId) && r.targetResourceId.value in cycle
  }

  /** Once the references up to some point overflow, so do all of them. */
  lemma {:induction false} OverflowPropagates(m: map<string, Resource>, kId: string, refs: seq<ResourceRef>, selectParent: bool,
                                             depth: nat, i: nat)
    requires kId in m && refs <= m[kId].refs && i <= |refs|
    requires ReachedWithin(m, kId, refs[..i], selectParent, depth).None?
    ensures ReachedWithin(m, kId, refs, selectParent, depth).None?
    decreases |refs|
  {
    if i == |refs| {
      assert refs[..i] == refs;
    } else {
      var prefix := refs[..|refs| - 1];
      assert prefix[..i] == refs[..i];
      OverflowPropagates(m, kId, prefix, selectParent, depth, i);
    }
  }

  /**
   * As written, getKustomizationRefs never returns for a kustomization on a cycle of outgoing
   * references, however deep the stack: a kustomization whose `resources` names its own folder
   * is such a cycle, since the folder's kustomization file is linked as an outgoing reference.
   */
  lemma {:induction false} CycleNeverReturns(m: map<string, Resource>, cycle: set<string>, kId: string, selectParent: bool, depth: nat)
    requires OutgoingCycle(m, cycle) && kId in cycle
    ensures RefsWithin(m, kId, selectParent, depth).None?
    decreases depth
  {
    assert PointsInto(m, kId, cycle);
    var refs := m[kId].refs;
    var r :| r in refs && r.refType == Outgoing && IsSet(r.targetResourceId) && r.targetResourceId.value in cycle;
    var i :| 0 <= i < |refs| && refs[i] == r;
    if depth > 0 {
      CycleNeverReturns(m, cycle, r.targetResourceId.value, false, depth - 1);
    }
    OverflowAt(m, cycle, kId, selectParent, depth, i);
    OverflowPropagates(m, kId, refs, selectParent, depth, i + 1);
  }

  /** The reference into the cycle overflows the references up to it. */
  lemma OverflowAt(m: map<string, Resource>, cycle: set<string>, kId: string, selectParent: bool, depth: nat, i: nat)
    requires kId in m && i < |m[kId].refs| && OutgoingCycle(m, cycle)
    requires m[kId].refs[i].refType == Outgoing && IsSet(m[kId].refs[i].targetResourceId)
    requires m[kId].refs[i].targetResourceId.value in cycle
    requires depth > 0 ==> RefsWithin(m, m[kId].refs[i].targetResourceId.value, false, depth - 1).None?
    ensures ReachedWithin(m, kId, m[kId].refs[..i + 1], selectParent, depth).None?
  {
    assert PointsInto(m, m[kId].refs[i].targetResourceId.value, cycle);
    var upto := m[kId].refs[..i + 1];
    assert upto[..i] == m[kId].refs[..i] && upto[i] == m[kId].refs[i];
  }

  /** Where no cycle is reachable, the code as written returns what KustomizationRefs says, given a deep enough stack. */
  lemma {:induction false} RefsWithinAgrees(m: map<string, Resource>, kId: string, selectParent: bool, rank: Ranking, depth: nat)
    requires KustomizationDag(m, rank) && kId in rank.within && depth > rank.level(kId)
    ensures RefsWithin(m, kId, selectParent, depth) == Some(KustomizationRefs(m, kId, selectParent, rank))
    decreases rank.level(kId), 1
  {
    if kId in m {
      ReachedWithinAgrees(m, kId, m[kId].refs, selectParent, rank, depth);
    }
  }

  lemma {:induction false} ReachedWithinAgrees(m: map<string, Resource>, kId: string, refs: seq<ResourceRef>, selectParent: bool,
                                              rank: Ranking, depth: nat)
    requires KustomizationDag(m, rank) && kId in rank.within && kId in m && refs <= m[kId].refs && depth > rank.level(kId)
    ensures ReachedWithin(m, kId, refs, selectParent, depth) == Some(ReachedVia(m, kId, refs, selectParent, rank))
    decreases rank.level(kId), 0, |refs|
  {
    if refs != [] {
      var r := refs[|refs| - 1];
      assert r == m[kId].refs[|refs| - 1];
      ReachedWithinAgrees(m, kId, refs[..|refs| - 1], selectParent, rank, depth);
      if Followed(r, selectParent) && IsSet(r.targetResourceId) && r.targetResourceId.value in m {
        var t := r.targetResourceId.value;
        if m[t].kind == KUSTOMIZATION_KIND && r.refType == Outgoing {
          assert Descends(m, r) && r in m[kId].refs;
          RefsWithinAgrees(m, t, false, rank, depth - 1);
          assert ReachedWithin(m, kId, refs, selectParent, depth)
              == Some(ReachedVia(m, kId, refs[..|refs| - 1], selectParent, rank) + [t] + KustomizationRefs(m, t, false, rank));
          assert ReachedVia(m, kId, refs, selectParent, rank)
              == ReachedVia(m, kId, refs[..|refs| - 1], selectParent, rank) + [t] + KustomizationRefs(m, t, false, rank);
        } else {
          var before := ReachedVia(m, kId, refs[..|refs| - 1], selectParent, rank);
          assert before + [t] + [] == before + [t];
        }
      }
    }
  }

  /** Hence no ranking can cover a kustomization on a cycle: the precondition of KustomizationRefs excludes exactly the non-returning calls. */
  lemma NoRankingOnCycle(m: map<string, Resource>, cycle: set<string>, kId: string, rank: Ranking)
    requires OutgoingCycle(m, cycle) && kId in cycle && KustomizationDag(m, rank)
    ensures kId !in rank.within
  {
    if kId in rank.within {
      CycleNeverReturns(m, cycle, kId, false, rank.level(kId) + 1);
      RefsWithinAgrees(m, kId, false, rank, rank.level(kId) + 1);
      assert false;
    }
  }

  // ---------------------------------------------------------------------------
  // getKustomizationRefs corrected: a kustomization already being visited is not entered again
  // ---------------------------------------------------------------------------

  /** Kustomization `k` enters Kustomization `c`: one of its outgoing references names `c`. */
  ghost predicate Enters(m: map<string, Resource>, k: string, c: string) {
    k in m && exists r :: r in m[k].refs && Descends(m, r) && r.targetResourceId.value == c
  }

  /** Kustomization `k` lists `t` directly: a followed reference of `k` names the existing resource `t`. */
  ghost predicate Lists(m: map<string, Resource>, k: string, selectParent: bool, t: string) {
    k in m && exists r :: r in m[k].refs && Followed(r, selectParent) && IsSet(r.targetResourceId) && r.targetResourceId.value == t && t in m
  }

  /** A chain of kustomizations, each entered from the one before it. */
  ghost predicate Chain(m: map<string, Resource>, path: seq<string>) {
    |path| >= 1 && forall i :: 0 <= i < |path| - 1 ==> Enters(m, path[i], path[i + 1])
  }

  ghost predicate Distinct(path: seq<string>) {
    forall i, j :: 0 <= i < j < |path| ==> path[i] != path[j]
  }

  /**
   * `t` is reachable from kustomization kId: it is listed by the last kustomization of a chain
   * from kId. Incoming references count only on kId itself, and only with selectParent.
   */
  ghost predicate Reachable(m: map<string, Resource>, kId: string, selectParent: bool, t: string) {
    exists path :: Chain(m, path) && path[0] == kId && Lists(m, path[|path| - 1], selectParent && |path| == 1, t)
  }

  /**
   * getKustomizationRefs with a record of the kustomizations whose calls are still running
   * (`inside`): a reference back to one of them is listed but not followed again, so every
   * cycle is followed once and the call returns on any resource map.
   */
  function RefsVisited(m: map<string, Resource>, kId: string, selectParent: bool, inside: set<string>): seq<string>
    requires kId !in inside
    decreases m.Keys - inside, 1
  {
    if kId in m then VisitedVia(m, kId, m[kId].refs, selectParent, inside) else []
  }

  /** What the references `refs` of kustomization kId contribute to RefsVisited, in order. */
  function VisitedVia(m: map<string, Resource>, kId: string, refs: seq<ResourceRef>, selectParent: bool,
                      inside: set<string>): seq<string>
    requires kId in m && kId !in inside
    decreases m.Keys - inside, 0, |refs|
  {
    if refs == [] then []
    else
      var r := refs[|refs| - 1];
      var before := VisitedVia(m, kId, refs[..|refs| - 1], selectParent, inside);
      if Followed(r, selectParent) && IsSet(r.targetResourceId) && r.targetResourceId.value in m then
        var t := r.targetResourceId.value;
        before + [t] + (if Descends(m, r) && t !in inside && t != kId then RefsVisited(m, t, false, inside + {kId}) else [])
      else
        before
  }

  /** Following reference `r` of kId reaches `t` in RefsVisited: its target, or what an unvisited nested Kustomization reaches. */
  ghost predicate VisitedThrough(m: map<string, Resource>, kId: string, r: ResourceRef, selectParent: bool, inside: set<string>, t: string)
  {
    && Followed(r, selectParent) && IsSet(r.targetResourceId) && r.targetResourceId.value in m
    && (|| t == r.targetResourceId.value
        || (&& Descends(m, r) && r.targetResourceId.value !in inside && r.targetResourceId.value != kId
            && t in RefsVisited(m, r.targetResourceId.value, false, inside + {kId})))
  }

  /** getKustomizationRefs corrected: the loop of the source, with the running calls passed down. */
  method GetKustomizationRefsVisited(m: map<string, Resource>, kId: string, selectParent: bool, inside: set<string>)
    returns (linked: seq<string>)
    requires kId !in inside
    ensures linked == RefsVisited(m, kId, selectParent, inside)
    decreases m.Keys - inside
  {
    linked := [];
    if kId in m {
      var refs := m[kId].refs;
      var i := 0;
      while i < |refs|
        invariant 0 <= i <= |refs|
        invariant linked == VisitedVia(m, kId, refs[..i], selectParent, inside)
      {
        var r := refs[i];
        assert refs[..i + 1][..i] == refs[..i];
        if Followed(r, selectParent) && IsSet(r.targetResourceId) {
          var t := r.targetResourceId.value;
          if t in m {
            linked := linked + [t];
            if m[t].kind == KUSTOMIZATION_KIND && r.refType == Outgoing && t !in inside && t != kId {
              var nested := GetKustomizationRefsVisited(m, t, false, inside + {kId});
              linked := linked + nested;
            } else {
              assert linked + [] == linked;
            }
          }
        }
        i := i + 1;
      }
      assert refs[..|refs|] == refs;
    }
  }

  /** The last reference's contribution, one step of VisitedVia. */
  lemma VisitedViaLast(m: map<string, Resource>, kId: string, refs: seq<ResourceRef>, selectParent: bool,
                       inside: set<string>, t: string)
    requires kId in m && kId !in inside && refs != []
    ensures t in VisitedVia(m, kId, refs, selectParent, inside) <==>
      t in VisitedVia(m, kId, refs[..|refs| - 1], selectParent, inside) || VisitedThrough(m, kId, refs[|refs| - 1], selectParent, inside, t)
  {
  }

  lemma {:induction false} VisitedViaMeaning(m: map<string, Resource>, kId: string, refs: seq<ResourceRef>, selectParent: bool,
                                            inside: set<string>, t: string)
    requires kId in m && kId !in inside
    ensures t in VisitedVia(m, kId, refs, selectParent, inside) <==>
      exists r :: r in refs && VisitedThrough(m, kId, r, selectParent, inside, t)
    decreases |refs|
  {
    if refs != [] {
      var prefix := refs[..|refs| - 1];
      var last := refs[|refs| - 1];
      VisitedViaMeaning(m, kId, prefix, selectParent, inside, t);
      VisitedViaLast(m, kId, refs, selectParent, inside, t);
      assert refs == prefix + [last];
      if exists r :: r in refs && VisitedThrough(m, kId, r, selectParent, inside, t) {
        var r :| r in refs && VisitedThrough(m, kId, r, selectParent, inside, t);
        if r != last {
          assert r in prefix;
        }
      }
    }
  }

  /** Everything the corrected query returns is reachable. */
  lemma {:induction false} RefsVisitedSound(m: map<string, Resource>, kId: string, selectParent: bool, inside: set<string>, t: string)
    requires kId !in inside && t in RefsVisited(m, kId, selectParent, inside)
    ensures Reachable(m, kId, selectParent, t)
    decreases m.Keys - inside
  {
    VisitedViaMeaning(m, kId, m[kId].refs, selectParent, inside, t);
    var r :| r in m[kId].refs && VisitedThrough(m, kId, r, selectParent, inside, t);
    var c := r.targetResourceId.value;
    if t == c {
      assert Lists(m, kId, selectParent, t);
      assert Chain(m, [kId]);
    } else {
      RefsVisitedSound(m, c, false, inside + {kId}, t);
      var p :| Chain(m, p) && p[0] == c && Lists(m, p[|p| - 1], false, t);
      assert Enters(m, kId, c);
      ChainCons(m, kId, p);
      assert Lists(m, ([kId] + p)[|[kId] + p| - 1], false, t);
    }
  }

  /** A kustomization that enters the head of a chain extends it. */
  lemma ChainCons(m: map<string, Resource>, k: string, p: seq<string>)
    requires Chain(m, p) && Enters(m, k, p[0])
    ensures Chain(m, [k] + p) && ([k] + p)[0] == k && ([k] + p)[|p|] == p[|p| - 1]
  {
    var q := [k] + p;
    assert forall i :: 0 < i < |q| ==> q[i] == p[i - 1];
  }

  /** What a chain of distinct kustomizations, none of them running, lists is returned. */
  lemma {:induction false} RefsVisitedComplete(m: map<string, Resource>, path: seq<string>, selectParent: bool, inside: set<string>, t: string)
    requires Chain(m, path) && Distinct(path) && forall i :: 0 <= i < |path| ==> path[i] !in inside
    requires Lists(m, path[|path| - 1], selectParent && |path| == 1, t)
    ensures t in RefsVisited(m, path[0], selectParent, inside)
    decreases |path|
  {
    var k := path[0];
    if |path| == 1 {
      var r :| r in m[k].refs && Followed(r, selectParent) && IsSet(r.targetResourceId) && r.targetResourceId.value == t && t in m;
      assert VisitedThrough(m, k, r, selectParent, inside, t);
      VisitedViaMeaning(m, k, m[k].refs, selectParent, inside, t);
    } else {
      var c := path[1];
      assert Enters(m, k, c);
      var r :| r in m[k].refs && Descends(m, r) && r.targetResourceId.value == c;
      var rest := path[1..];
      assert forall i :: 0 <= i < |rest| ==> rest[i] == path[i + 1];
      assert Chain(m, rest);
      assert forall i :: 0 <= i < |rest| ==> rest[i] !in inside + {k};
      RefsVisitedComplete(m, rest, false, inside + {k}, t);
      assert VisitedThrough(m, k, r, selectParent, inside, t);
      VisitedViaMeaning(m, k, m[k].refs, selectParent, inside, t);
    }
  }

  /** Cutting the loops out of a chain leaves a chain of distinct kustomizations with the same ends. */
  lemma {:induction false} ShortenChain(m: map<string, Resource>, p: seq<string>) returns (q: seq<string>)
    requires Chain(m, p)
    ensures Chain(m, q) && Distinct(q) && |q| <= |p| && q[0] == p[0] && q[|q| - 1] == p[|p| - 1]
    decreases |p|
  {
    if Distinct(p) {
      q := p;
    } else {
      var i, j :| 0 <= i < j < |p| && p[i] == p[j];
      var cut := p[..i] + p[j..];
      assert forall n :: 0 <= n < |cut| ==> cut[n] == if n < i then p[n] else p[n + j - i];
      forall n | 0 <= n < |cut| - 1
        ensures Enters(m, cut[n], cut[n + 1])
      {
        if n + 1 < i {
          assert Enters(m, p[n], p[n + 1]);
        } else if n + 1 == i {
          assert Enters(m, p[n], p[n + 1]);
        } else {
          assert Enters(m, p[n + j - i], p[n + j - i + 1]);
        }
      }
      q := ShortenChain(m, cut);
    }
  }

  /** The corrected query returns exactly the resources reachable from the kustomization, on any resource map. */
  lemma RefsVisitedMeaning(m: map<string, Resource>, kId: string, selectParent: bool, t: string)
    ensures t in RefsVisited(m, kId, selectParent, {}) <==> Reachable(m, kId, selectParent, t)
  {
    if t in RefsVisited(m, kId, selectParent, {}) {
      RefsVisitedSound(m, kId, selectParent, {}, t);
    }
    if Reachable(m, kId, selectParent, t) {
      var p :| Chain(m, p) && p[0] == kId && Lists(m, p[|p| - 1], selectParent && |p| == 1, t);
      var q := ShortenChain(m, p);
      var last := p[|p| - 1];
      var r :| r in m[last].refs && Followed(r, selectParent && |p| == 1) && IsSet(r.targetResourceId) && r.targetResourceId.value == t && t in m;
      assert Lists(m, q[|q| - 1], selectParent && |q| == 1, t);
      RefsVisitedComplete(m, q, selectParent, {}, t);
    }
  }

  /** The running kustomizations all lie above kId in the ranking. */
  ghost predicate RunningAbove(rank: Ranking, inside: set<string>, kId: string) {
    forall a :: a in inside && a in rank.within ==> rank.level(a) > rank.level(kId)
  }

  /** Where no cycle is reachable, the corrected query returns what KustomizationRefs says, in order. */
  lemma {:induction false} RefsVisitedAgrees(m: map<string, Resource>, kId: string, selectParent: bool, rank: Ranking, inside: set<string>)
    requires KustomizationDag(m, rank) && kId in rank.within && kId !in inside && RunningAbove(rank, inside, kId)
    ensures RefsVisited(m, kId, selectParent, inside) == KustomizationRefs(m, kId, selectParent, rank)
    decreases rank.level(kId), 1
  {
    if kId in m {
      VisitedViaAgrees(m, kId, m[kId].refs, selectParent, rank, inside);
    }
  }

  lemma {:induction false} VisitedViaAgrees(m: map<string, Resource>, kId: string, refs: seq<ResourceRef>, selectParent: bool,
                                           rank: Ranking, inside: set<string>)
    requires KustomizationDag(m, rank) && kId in rank.within && kId in m && refs <= m[kId].refs
    requires kId !in inside && RunningAbove(rank, inside, kId)
    ensures VisitedVia(m, kId, refs, selectParent, inside) == ReachedVia(m, kId, refs, selectParent, rank)
    decreases rank.level(kId), 0, |refs|
  {
    if refs != [] {
      var r := refs[|refs| - 1];
      assert r == m[kId].refs[|refs| - 1];
      VisitedViaAgrees(m, kId, refs[..|refs| - 1], selectParent, rank, inside);
      if Followed(r, selectParent) && IsSet(r.targetResourceId) && r.targetResourceId.value in m {
        var t := r.targetResourceId.value;
        if Descends(m, r) {
          assert r in m[kId].refs;
          assert t in rank.within && rank.level(t) < rank.level(kId);
          assert t !in inside && t != kId;
          RefsVisitedAgrees(m, t, false, rank, inside + {kId});
        }
      }
    }
  }

  /** Wherever the code as written returns, the corrected query returns the same list. */
  lemma CorrectedAgreesWithWritten(m: map<string, Resource>, kId: string, selectParent: bool, rank: Ranking, depth: nat)
    requires KustomizationDag(m, rank) && kId in rank.within && depth > rank.level(kId)
    ensures RefsWithin(m, kId, selectParent, depth) == Some(RefsVisited(m, kId, selectParent, {}))
  {
    RefsWithinAgrees(m, kId, selectParent, rank, depth);
    RefsVisitedAgrees(m, kId, selectParent, rank, {});
  }
}
