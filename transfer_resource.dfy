/**
 * Transferring a resource between the two sides of a comparison: deploying it to the cluster or
 * extracting it to the local workspace.
 *
 * What the cluster answers (whether the namespace exists, the deployed resource's content), the
 * generated uuid and the YAML printer are inputs; the calls made to the cluster and to the store
 * are returned as effects, in the order the source makes them.
 */
module TransferResource {
  import opened Wrappers
  import opened K8sResource

  const CLUSTER: string := "cluster"
  const LOCAL: string := "local"
  const TRANSFER_UNSUPPORTED: string := "transfer unsupported"
  const UNKNOWN_NAME: string := "UNKNOWN"
  const DEFAULT_NAMESPACE: string := "default"

  /** canTransfer: both sides are known and the target side is the cluster or the local workspace. */
  predicate CanTransfer(from: Option<string>, to: Option<string>) {
    IsSet(from) && IsSet(to) && (to.value == CLUSTER || to.value == LOCAL)
  }

  datatype TransferOptions = TransferOptions(from: string, to: string, namespace: Option<string>, context: Option<string>)

  /** The fields a caller of createResource overrides. */
  datatype Overrides = Overrides(id: Option<string>, filePath: Option<string>, name: Option<string>)

  /** The calls a transfer makes, other than building its result. */
  datatype Effect =
    | CreateNamespace(namespace: string, context: string)
    | ApplyResource(resourceId: string, namespace: string, isNewNamespace: bool, context: string)
    | UpdateResource(resourceId: string, text: string)

  datatype Transfer = Transfer(effects: seq<Effect>, resource: Resource)

  /**
   * The answers a transfer receives: the kubeconfig's current context, whether the namespace
   * exists in the cluster, what fetching the deployed resource yields, and a fresh uuid.
   */
  datatype Environment = Environment(kubeConfigContext: string, hasNamespace: bool, clusterContent: Option<Content>, uuid: string)

  /** createResource: a new unsaved, unselected resource for a raw manifest; the overrides win. */
  function CreateResource(raw: Content, uuid: string, toYaml: Content -> string, overrides: Overrides): (r: Resource)
    ensures r.id == overrides.id.GetOr(uuid)
    ensures r.name == overrides.name.GetOr(raw.metadataName.GetOr(UNKNOWN_NAME))
    ensures r.filePath == overrides.filePath.GetOr(UNSAVED_PREFIX + uuid)
    ensures r.kind == raw.kind && r.version == raw.apiVersion && r.content == raw && r.text == toYaml(raw)
    ensures !r.isSelected && !r.isHighlighted
  {
    var defaults := Resource(uuid, UNSAVED_PREFIX + uuid, raw.metadataName.GetOr(UNKNOWN_NAME), raw.kind, raw.apiVersion,
                             None, false, false, toYaml(raw), false, raw, [], None);
    defaults.(id := overrides.id.GetOr(defaults.id),
              filePath := overrides.filePath.GetOr(defaults.filePath),
              name := overrides.name.GetOr(defaults.name))
  }

  /** Without a path override, a created resource is an unsaved one, not part of a preview. */
  lemma CreatedResourceIsUnsaved(raw: Content, uuid: string, toYaml: Content -> string, overrides: Overrides)
    requires overrides.filePath.None?
    ensures var r := CreateResource(raw, uuid, toYaml, overrides);
      UNSAVED_PREFIX <= r.filePath && !IsPreviewPath(r.filePath)
  {
    UnsavedPathIsNotPreview(uuid);
  }

  /** The namespace a deployment goes to: the resource's own, else the requested one, else the default. */
  function DeployNamespace(source: Resource, options: TransferOptions): (ns: string)
    ensures source.namespace.Some? ==> ns == source.namespace.value
    ensures source.namespace.None? && options.namespace.Some? ==> ns == options.namespace.value
    ensures source.namespace.None? && options.namespace.None? ==> ns == DEFAULT_NAMESPACE
  {
    source.namespace.GetOr(options.namespace.GetOr(DEFAULT_NAMESPACE))
  }

  /** Where a resource deployed to a cluster context is shown. */
  function DeployedPath(context: string, id: string): string {
    PREVIEW_PREFIX + "://" + context + "/" + id
  }

  /** A deployed resource is shown as part of a preview, and its id tells it apart within its context. */
  lemma DeployedPathIsPreview(context: string, a: string, b: string)
    ensures IsPreviewPath(DeployedPath(context, a))
    ensures DeployedPath(context, a) == DeployedPath(context, b) ==> a == b
  {
    var prefix := PREVIEW_PREFIX + "://" + context + "/";
    assert DeployedPath(context, a) == prefix + a && DeployedPath(context, b) == prefix + b;
    assert (prefix + a)[..|PREVIEW_PREFIX|] == PREVIEW_PREFIX;
    if prefix + a == prefix + b {
      assert a == (prefix + a)[|prefix|..];
      assert b == (prefix + b)[|prefix|..];
    }
  }

  /**
   * deployResourceToCluster: create the namespace when the cluster lacks it, apply the source,
   * then describe the deployed copy with the cluster's content (the source's when the fetch
   * yields nothing), under the target's id when there is a target.
   */
  function DeployResourceToCluster(source: Resource, target: Option<Resource>, options: TransferOptions, env: Environment,
                                   toYaml: Content -> string): (t: Transfer)
    ensures var context := options.context.GetOr(env.kubeConfigContext);
      var ns := DeployNamespace(source, options);
      && t.effects == (if env.hasNamespace then [] else [CreateNamespace(ns, context)])
                      + [ApplyResource(source.id, ns, !env.hasNamespace, context)]
      && t.resource.id == (if target.Some? then target.value.id else env.uuid)
      && t.resource.filePath == DeployedPath(context, t.resource.id)
    ensures t.resource.content == env.clusterContent.GetOr(source.content)
    ensures t.resource.name == t.resource.content.metadataName.GetOr(UNKNOWN_NAME)
    ensures IsPreviewPath(t.resource.filePath)
  {
    var currentContext := options.context.GetOr(env.kubeConfigContext);
    var namespace := DeployNamespace(source, options);
    var effects := (if env.hasNamespace then [] else [CreateNamespace(namespace, currentContext)])
                   + [ApplyResource(source.id, namespace, !env.hasNamespace, currentContext)];
    var updatedContent := env.clusterContent.GetOr(source.content);
    var id := if target.Some? then target.value.id else env.uuid;
    DeployedPathIsPreview(currentContext, id, id);
    Transfer(effects, CreateResource(updatedContent, env.uuid, toYaml, Overrides(Some(id), Some(DeployedPath(currentContext, id)), None)))
  }

  /**
   * extractResourceToLocal: over an existing target, the target with the source's text (and the
   * store told so); otherwise a new unsaved resource named like the source.
   */
  function ExtractResourceToLocal(source: Resource, target: Option<Resource>, uuid: string, toYaml: Content -> string): (t: Transfer)
    ensures target.Some? ==>
      && t.resource.text == source.text
      && t.resource.(text := target.value.text) == target.value
      && t.effects == [UpdateResource(target.value.id, source.text)]
    ensures target.None? ==>
      && t.effects == []
      && t.resource.name == source.name
      && t.resource.content == source.content
      && t.resource.id == uuid
      && UNSAVED_PREFIX <= t.resource.filePath && !IsPreviewPath(t.resource.filePath)
  {
    if target.Some? then
      Transfer([UpdateResource(target.value.id, source.text)], target.value.(text := source.text))
    else
      CreatedResourceIsUnsaved(source.content, uuid, toYaml, Overrides(None, None, Some(source.name)));
      Transfer([], CreateResource(source.content, uuid, toYaml, Overrides(None, None, Some(source.name))))
  }

  /** doTransferResource: dispatch on the target side; any other side is refused. */
  function DoTransferResource(source: Resource, target: Option<Resource>, options: TransferOptions, env: Environment,
                              toYaml: Content -> string): (r: Outcome<Transfer>)
    ensures r.Error? <==> options.to != CLUSTER && options.to != LOCAL
    ensures r.Error? ==> r.message == TRANSFER_UNSUPPORTED
  {
    if options.to == CLUSTER then Ok(DeployResourceToCluster(source, target, options, env, toYaml))
    else if options.to == LOCAL then Ok(ExtractResourceToLocal(source, target, env.uuid, toYaml))
    else Error(TRANSFER_UNSUPPORTED)
  }

  /** Every transfer canTransfer allows is one doTransferResource carries out, and no other. */
  lemma CanTransferAgreesWithDispatch(source: Resource, target: Option<Resource>, options: TransferOptions, env: Environment,
                                      toYaml: Content -> string)
    requires options.from != ""
    ensures CanTransfer(Some(options.from), Some(options.to)) <==> DoTransferResource(source, target, options, env, toYaml).Ok?
  {
    assert CLUSTER != "" && LOCAL != "";
  }
}
