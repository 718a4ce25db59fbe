/**
 * The resource and reference records shared by every model: a Kubernetes resource
 * extracted from a file or generated in memory, and the references between resources.
 */
module K8sResource {
  import opened Wrappers

  /** Marker that starts the path of every resource generated in memory for a preview. */
  const PREVIEW_PREFIX: string := "preview://"
  /** Marker that starts the path of a resource created but not yet saved to a file. */
  const UNSAVED_PREFIX: string := "unsaved://"

  /** The three kinds of reference; a reference is exactly one of them. */
  datatype ResourceRefType = Incoming | Outgoing | UnsatisfiedOutgoing

  /** Where the referring value stands in the document. */
  datatype RefPosition = RefPosition(line: nat, column: nat, length: nat)

  datatype ResourceRef = ResourceRef(
    refType: ResourceRefType,
    name: string,                      // the referring value, e.g. the name of a ConfigMap
    targetResourceId: Option<string>,  // absent for unsatisfied references
    position: Option<RefPosition>)     // absent for incoming file references

  /** A scalar of the parsed document together with its position (the source's NodeWrapper). */
  datatype ScalarNode = ScalarNode(value: string, position: RefPosition)

  /**
   * The parts of the parsed manifest that the modelled code reads:
   * `kind`, `apiVersion`, `metadata.name` and a kustomization's composition lists.
   */
  datatype Content = Content(
    kind: string,
    apiVersion: string,
    metadataName: Option<string>,
    resources: Option<seq<ScalarNode>>,
    bases: Option<seq<ScalarNode>>,
    patchesStrategicMerge: Option<seq<string>>)

  /** Start offset and length of a resource inside a multi-document file. */
  datatype Range = Range(start: nat, length: nat)

  datatype Resource = Resource(
    id: string,
    filePath: string,
    name: string,
    kind: string,
    version: string,
    namespace: Option<string>,
    isHighlighted: bool,
    isSelected: bool,
    text: string,
    isDirty: bool,
    content: Content,
    refs: seq<ResourceRef>,
    range: Option<Range>)

  /** An unsatisfied reference never names a target resource. */
  predicate WellFormedRef(r: ResourceRef) {
    r.refType == UnsatisfiedOutgoing ==> r.targetResourceId.None?
  }

  /** A range lies within the text of the file holding the resource. */
  predicate RangeWithin(r: Range, fileText: string) {
    r.start + r.length <= |fileText|
  }

  /** Every resource of a resource map is stored under its own id. */
  predicate KeyedById(m: map<string, Resource>) {
    forall k :: k in m ==> m[k].id == k
  }

  /** Resources whose path starts with the preview marker belong to the current preview. */
  predicate IsPreviewPath(p: string) {
    PREVIEW_PREFIX <= p
  }

  /** An unsaved path is never taken for a preview path. */
  lemma UnsavedPathIsNotPreview(id: string)
    ensures !IsPreviewPath(UNSAVED_PREFIX + id)
  {
    assert (UNSAVED_PREFIX + id)[0] == 'u';
  }
}
