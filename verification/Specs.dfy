/**
  The custom resources: the shared spec of an OIDCShim and a ClusterOIDCShim, and the operator's
  defaults.  Templated fields hold a `Template`; a label selector is an abstract compile-or-error
  flag with a matching predicate.
 */
module Specs {
  import opened Text
  import opened Keys
  import opened Templates
  import opened Params

  datatype LabelSelector = LabelSelector(valid: bool, matches: map<string, string> -> bool)

  datatype Enrollment = Enrollment(namespaces: Option<bool>, serviceAccounts: Option<bool>, pods: Option<bool>)

  datatype SelectionSpec = SelectionSpec(
    enrollment: Option<Enrollment>,
    namespaceSelector: Option<LabelSelector>,
    serviceAccountSelector: Option<LabelSelector>,
    podSelector: Option<LabelSelector>)

  datatype TokenSpec = TokenSpec(volumeName: string, mountPath: string, fileName: string, fileMode: string)

  datatype EnvSpec = EnvSpec(name: string, value: Template)

  datatype FileSpec = FileSpec(path: string, content: Template, mode: string)

  datatype InjectSpec = InjectSpec(env: seq<EnvSpec>, files: seq<FileSpec>, containers: seq<string>)

  datatype SpiffeSpec = SpiffeSpec(csiDriver: string, socketMountPath: string, socketFile: string)

  datatype HelperSpec = HelperSpec(image: string, imagePullPolicy: string)

  datatype ShimSpec = ShimSpec(
    selection: SelectionSpec,
    parameters: seq<Parameter>,
    audience: Template,
    extraAudiences: seq<Template>,
    token: TokenSpec,
    inject: InjectSpec,
    spiffe: Option<SpiffeSpec>,
    helper: Option<HelperSpec>)

  /** `configMapNamespace` exists on ClusterOIDCShim only; it is ignored for an OIDCShim. */
  datatype Shim = Shim(id: ShimId, spec: ShimSpec, configMapNamespace: string)

  function ConfigMapNamespaceFor(shim: Shim, podNamespace: string): string
  {
    match shim.id
    case Namespaced(ns, _) => ns
    case ClusterWide(_) => if shim.configMapNamespace != "" then shim.configMapNamespace else podNamespace
  }

  datatype Defaults = Defaults(
    helperImage: string,
    csiDriver: string,
    socketMountPath: string,
    socketFile: string,
    maxRenderedBytes: int)

  /** The part of the operator's own option check that plan building relies on. */
  predicate ValidDefaults(d: Defaults)
  {
    d.socketMountPath != "" && d.socketMountPath[0] == '/' && d.socketFile != "" && d.maxRenderedBytes > 0
  }
}
