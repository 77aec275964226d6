/**
  The injection engine as a specification: what it means to resolve a plan's targets, to find a
  collision, to inject one accepted plan, and to run a list of plans over a pod.  `Run` is a fold
  of `Step`; everything proved about the engine is proved about it, and module `Engine` shows
  that the in-place code computes it.
 */
module Injection {
  import opened Text
  import opened Keys
  import opened Bytes
  import opened Pods
  import opened FileModes

  const MAX_POD_ANNOTATION_BYTES := 192 * 1024

  datatype Token = Token(volumeName: string, mountPath: string, fileName: string, fileMode: string)

  datatype RenderedFile = RenderedFile(path: string, content: string, mode: string)

  datatype Plan = Plan(
    shimName: string,
    shimKey: string,
    clusterScoped: bool,
    token: Token,
    helperConf: string,
    files: seq<RenderedFile>,
    env: seq<EnvVar>,
    containers: seq<string>,
    csiDriver: string,
    socketMountPath: string,
    socketFile: string,
    helperImage: string)

  datatype Reason =
    | SocketNotCsi
    | SocketDriver(have: string, want: string)
    | VolumeExists(volume: string)
    | InitContainerExists(initContainer: string)
    | PathMounted(container: string, mountPath: string)

  datatype Warning =
    | AlreadyInjected
    | BudgetExceeded(shimKey: string, total: nat)
    | ContainerNotFound(shim: string, container: string)
    | NoRequestedContainer(shim: string, requested: seq<string>)
    | Collision(shim: string, reason: Reason)
    | EnvLeftUntouched(shim: string, container: string, env: string)

  /* ---------- what a plan claims ---------- */

  function ContentBytes(files: seq<RenderedFile>): nat
  {
    if files == [] then 0 else ContentBytes(files[..|files| - 1]) + |files[|files| - 1].content|
  }

  function RenderedBytes(plan: Plan): nat
  {
    |plan.helperConf| + ContentBytes(plan.files)
  }

  function FilePaths(files: seq<RenderedFile>): (r: seq<string>)
    ensures |r| == |files| && forall i :: 0 <= i < |files| ==> r[i] == files[i].path
  {
    seq(|files|, i requires 0 <= i < |files| => files[i].path)
  }

  function MountPaths(plan: Plan): seq<string>
  {
    [plan.token.mountPath] + FilePaths(plan.files)
  }

  /* ---------- targets ---------- */

  datatype Targeting = Targeting(targets: seq<string>, requested: seq<string>, warnings: seq<Warning>)

  function ContainersFromAnnotation(annotations: map<string, string>): seq<string>
  {
    if CONTAINERS_ANNOTATION in annotations then CommaNames(annotations[CONTAINERS_ANNOTATION]) else []
  }

  function Existing(cs: seq<Container>, names: seq<string>): seq<string>
  {
    if names == [] then []
    else
      var rest := Existing(cs, names[..|names| - 1]);
      var name := names[|names| - 1];
      if FindContainer(cs, name).Some? then rest + [name] else rest
  }

  function NotFound(cs: seq<Container>, shim: string, names: seq<string>): seq<Warning>
  {
    if names == [] then []
    else
      var rest := NotFound(cs, shim, names[..|names| - 1]);
      var name := names[|names| - 1];
      if FindContainer(cs, name).Some? then rest else rest + [ContainerNotFound(shim, name)]
  }

  /** The pod's own container filter overrides the plan's; no filter means every app container. */
  function ResolveTargets(pod: PodState, plan: Plan): Targeting
  {
    var fromPod := ContainersFromAnnotation(pod.annotations);
    var requested := if fromPod != [] then fromPod else plan.containers;
    if requested == [] then Targeting(ContainerNames(pod.containers), [], [])
    else Targeting(Existing(pod.containers, requested), requested,
                   NotFound(pod.containers, plan.shimName, requested))
  }

  /* ---------- collisions ---------- */

  function SocketProblem(pod: PodState, plan: Plan): Option<Reason>
  {
    match FindVolume(pod.volumes, SOCKET_VOLUME_NAME)
    case None => None
    case Some(source) =>
      if !source.Csi? then Some(SocketNotCsi)
      else if source.driver != plan.csiDriver then Some(SocketDriver(source.driver, plan.csiDriver))
      else None
  }

  function PathProblem(c: Container, paths: seq<string>): Option<Reason>
  {
    if paths == [] then None
    else if FindMount(c.mounts, paths[0]).Some? then Some(PathMounted(c.name, paths[0]))
    else PathProblem(c, paths[1..])
  }

  /** Some requested path is already mounted in the first container of that name. */
  predicate Occupied(cs: seq<Container>, target: string, paths: seq<string>)
  {
    var c := FindContainer(cs, target);
    c.Some? && PathProblem(cs[c.value], paths).Some?
  }

  function MountProblem(cs: seq<Container>, targets: seq<string>, paths: seq<string>): Option<Reason>
  {
    if targets == [] then None
    else if Occupied(cs, targets[0], paths)
    then PathProblem(cs[FindContainer(cs, targets[0]).value], paths)
    else MountProblem(cs, targets[1..], paths)
  }

  lemma {:induction false} PathProblemIff(c: Container, paths: seq<string>)
    ensures PathProblem(c, paths).Some? <==> exists i :: 0 <= i < |paths| && FindMount(c.mounts, paths[i]).Some?
  {
    if paths != [] {
      PathProblemIff(c, paths[1..]);
      assert forall i :: 0 < i < |paths| ==> paths[i] == paths[1..][i - 1];
    }
  }

  lemma {:induction false} MountProblemIff(cs: seq<Container>, targets: seq<string>, paths: seq<string>)
    ensures MountProblem(cs, targets, paths).Some?
            <==> exists i :: 0 <= i < |targets| && Occupied(cs, targets[i], paths)
  {
    if targets != [] {
      MountProblemIff(cs, targets[1..], paths);
      assert forall i :: 0 < i < |targets| ==> targets[i] == targets[1..][i - 1];
    }
  }

  predicate InitTaken(pod: PodState, pending: seq<Container>, name: string)
  {
    FindContainer(pod.initContainers, name).Some? || FindContainer(pending, name).Some?
  }

  /** The first reason the plan cannot be applied, in the order the code checks them. */
  function CheckCollisions(pod: PodState, plan: Plan, pending: seq<Container>, targets: seq<string>): Option<Reason>
  {
    var socket := SocketProblem(pod, plan);
    if socket.Some? then socket
    else if FindVolume(pod.volumes, plan.token.volumeName).Some? then Some(VolumeExists(plan.token.volumeName))
    else if FindVolume(pod.volumes, ConfigVolumeName(plan.shimName)).Some?
    then Some(VolumeExists(ConfigVolumeName(plan.shimName)))
    else if InitTaken(pod, pending, InitContainerName(plan.shimName))
    then Some(InitContainerExists(InitContainerName(plan.shimName)))
    else if InitTaken(pod, pending, RefreshContainerName(plan.shimName))
    then Some(InitContainerExists(RefreshContainerName(plan.shimName)))
    else MountProblem(pod.containers, targets, MountPaths(plan))
  }

  /* ---------- injecting one accepted plan ---------- */

  function SocketVolume(plan: Plan): Volume { Volume(SOCKET_VOLUME_NAME, Csi(plan.csiDriver, true)) }
  function TokenVolume(plan: Plan): Volume { Volume(plan.token.volumeName, EmptyDir("Memory")) }

  function FileItem(plan: Plan, i: nat): DownwardItem
    requires i < |plan.files|
  {
    var mode := ParseFileMode(plan.files[i].mode);
    DownwardItem(FilesSubPath(i), AnnotationFieldRef(FileAnnotation(plan.shimName, i)),
                 Some(if mode.Some? then mode.value else 0))
  }

  function HelperConfItem(plan: Plan): DownwardItem
  {
    DownwardItem(HELPER_CONF_FILE, AnnotationFieldRef(HelperConfAnnotation(plan.shimName)), None)
  }

  function ConfigItems(plan: Plan, n: nat): (items: seq<DownwardItem>)
    requires n <= |plan.files|
    ensures |items| == n + 1 && items[0] == HelperConfItem(plan)
    ensures forall i :: 0 <= i < n ==> items[i + 1] == FileItem(plan, i)
  {
    if n == 0 then [HelperConfItem(plan)] else ConfigItems(plan, n - 1) + [FileItem(plan, n - 1)]
  }

  function ConfigVolume(plan: Plan): Volume
  {
    Volume(ConfigVolumeName(plan.shimName), DownwardApi(ConfigItems(plan, |plan.files|)))
  }

  /** What one plan appends to the pod's volumes: the socket only when it is not there yet. */
  function NewVolumes(vs: seq<Volume>, plan: Plan): seq<Volume>
  {
    (if FindVolume(vs, SOCKET_VOLUME_NAME).None? then [SocketVolume(plan)] else [])
    + [TokenVolume(plan), ConfigVolume(plan)]
  }

  function HelperContainer(plan: Plan, sidecar: bool): Container
  {
    Container(
      if sidecar then RefreshContainerName(plan.shimName) else InitContainerName(plan.shimName),
      plan.helperImage,
      if sidecar then ["-config", HELPER_CONF_PATH] else ["-config", HELPER_CONF_PATH, "-daemon-mode=false"],
      if sidecar then Some("Always") else None,
      [VolumeMount(SOCKET_VOLUME_NAME, plan.socketMountPath, "", true),
       VolumeMount(plan.token.volumeName, plan.token.mountPath, "", false),
       VolumeMount(ConfigVolumeName(plan.shimName), CONFIG_MOUNT_PATH, "", true)],
      [])
  }

  function HelperContainers(plan: Plan): seq<Container>
  {
    [HelperContainer(plan, false), HelperContainer(plan, true)]
  }

  function FileMount(plan: Plan, i: nat): VolumeMount
    requires i < |plan.files|
  {
    VolumeMount(ConfigVolumeName(plan.shimName), plan.files[i].path, FilesSubPath(i), true)
  }

  function PlanMounts(plan: Plan, n: nat): (ms: seq<VolumeMount>)
    requires n <= |plan.files|
    ensures |ms| == n + 1
    ensures ms[0] == VolumeMount(plan.token.volumeName, plan.token.mountPath, "", true)
    ensures forall i :: 0 <= i < n ==> ms[i + 1] == FileMount(plan, i)
  {
    if n == 0 then [VolumeMount(plan.token.volumeName, plan.token.mountPath, "", true)]
    else PlanMounts(plan, n - 1) + [FileMount(plan, n - 1)]
  }

  /** Environment variables are added in order; a name that is already defined is left alone. */
  function AddEnv(env: seq<EnvVar>, more: seq<EnvVar>): (r: seq<EnvVar>)
  {
    if more == [] then env
    else
      var before := AddEnv(env, more[..|more| - 1]);
      var e := more[|more| - 1];
      if HasEnv(before, e.name) then before else before + [e]
  }

  function EnvWarnings(shim: string, container: string, env: seq<EnvVar>, more: seq<EnvVar>): seq<Warning>
  {
    if more == [] then []
    else
      var before := more[..|more| - 1];
      var e := more[|more| - 1];
      EnvWarnings(shim, container, env, before)
      + (if HasEnv(AddEnv(env, before), e.name) then [EnvLeftUntouched(shim, container, e.name)] else [])
  }

  function InjectOne(c: Container, plan: Plan): Container
  {
    c.(mounts := c.mounts + PlanMounts(plan, |plan.files|), env := AddEnv(c.env, plan.env))
  }

  /** Targets are visited in order, each through a fresh first-match lookup by name. */
  function InjectAll(cs: seq<Container>, plan: Plan, targets: seq<string>): (r: seq<Container>)
    ensures |r| == |cs| && forall i :: 0 <= i < |cs| ==> r[i].name == cs[i].name
  {
    if targets == [] then cs
    else
      var before := InjectAll(cs, plan, targets[..|targets| - 1]);
      var c := FindContainer(before, targets[|targets| - 1]);
      if c.None? then before else before[c.value := InjectOne(before[c.value], plan)]
  }

  function InjectWarnings(cs: seq<Container>, plan: Plan, targets: seq<string>): seq<Warning>
  {
    if targets == [] then []
    else
      var earlier := targets[..|targets| - 1];
      var before := InjectAll(cs, plan, earlier);
      var c := FindContainer(before, targets[|targets| - 1]);
      InjectWarnings(cs, plan, earlier)
      + (if c.None? then []
         else EnvWarnings(plan.shimName, before[c.value].name, before[c.value].env, plan.env))
  }

  function WriteFiles(annotations: map<string, string>, plan: Plan, n: nat): map<string, string>
    requires n <= |plan.files|
  {
    if n == 0 then annotations
    else WriteFiles(annotations, plan, n - 1)[FileAnnotation(plan.shimName, n - 1) := plan.files[n - 1].content]
  }

  function WritePayload(annotations: map<string, string>, plan: Plan): map<string, string>
  {
    WriteFiles(annotations[HelperConfAnnotation(plan.shimName) := plan.helperConf], plan, |plan.files|)
  }

  function InjectPlan(pod: PodState, plan: Plan, targets: seq<string>): PodState
  {
    pod.(
      volumes := pod.volumes + NewVolumes(pod.volumes, plan),
      containers := InjectAll(pod.containers, plan, targets),
      annotations := WritePayload(pod.annotations, plan),
      labels := pod.labels[ShimLabelKey(plan.shimName) :=
                           if plan.clusterScoped then LABEL_CLUSTER else LABEL_NAMESPACED])
  }

  /* ---------- the loop ---------- */

  datatype Progress = Progress(
    pod: PodState,
    newInits: seq<Container>,
    addedBytes: nat,
    applied: seq<Plan>,
    warnings: seq<Warning>)

  function Verdict(plan: Plan, total: nat, t: Targeting, collision: Option<Reason>): Option<Warning>
  {
    if total > MAX_POD_ANNOTATION_BYTES then Some(BudgetExceeded(plan.shimKey, total))
    else if |t.requested| > 0 && |t.targets| == 0 then Some(NoRequestedContainer(plan.shimName, t.requested))
    else if collision.Some? then Some(Collision(plan.shimName, collision.value))
    else None
  }

  /** The warning under which the plan is skipped in this state, or None when it is accepted. */
  function Refusal(existing: nat, s: Progress, plan: Plan): Option<Warning>
  {
    var t := ResolveTargets(s.pod, plan);
    Verdict(plan, existing + s.addedBytes + RenderedBytes(plan), t,
            CheckCollisions(s.pod, plan, s.newInits, t.targets))
  }

  function TargetWarnings(existing: nat, s: Progress, plan: Plan): seq<Warning>
  {
    if existing + s.addedBytes + RenderedBytes(plan) > MAX_POD_ANNOTATION_BYTES then []
    else ResolveTargets(s.pod, plan).warnings
  }

  function Accept(s: Progress, plan: Plan): Progress
  {
    var targets := ResolveTargets(s.pod, plan).targets;
    Progress(
      InjectPlan(s.pod, plan, targets),
      s.newInits + HelperContainers(plan),
      s.addedBytes + RenderedBytes(plan),
      s.applied + [plan],
      s.warnings + InjectWarnings(s.pod.containers, plan, targets))
  }

  function Step(existing: nat, s: Progress, plan: Plan): Progress
  {
    var refusal := Refusal(existing, s, plan);
    var warned := s.(warnings := s.warnings + TargetWarnings(existing, s, plan));
    if refusal.Some? then warned.(warnings := warned.warnings + [refusal.value])
    else Accept(warned, plan)
  }

  function Run(existing: nat, s: Progress, plans: seq<Plan>): Progress
  {
    if plans == [] then s
    else Step(existing, Run(existing, s, plans[..|plans| - 1]), plans[|plans| - 1])
  }

  function Start(pod: PodState): Progress { Progress(pod, [], 0, [], []) }

  function ShimKeys(plans: seq<Plan>): (keys: seq<string>)
    ensures |keys| == |plans| && forall i :: 0 <= i < |plans| ==> keys[i] == plans[i].shimKey
  {
    seq(|plans|, i requires 0 <= i < |plans| => plans[i].shimKey)
  }

  /** The queued init containers go in front, then the two bookkeeping annotations are written. */
  function Finish(s: Progress): PodState
  {
    if s.applied == [] then s.pod
    else s.pod.(
      initContainers := s.newInits + s.pod.initContainers,
      annotations := s.pod.annotations[STATUS_ANNOTATION := STATUS_INJECTED]
                                      [SHIMS_ANNOTATION := Join(ShimKeys(s.applied), ",")])
  }

  predicate Injected(pod: PodState)
  {
    STATUS_ANNOTATION in pod.annotations && pod.annotations[STATUS_ANNOTATION] == STATUS_INJECTED
  }

  datatype Outcome = Outcome(pod: PodState, applied: seq<Plan>, warnings: seq<Warning>)

  ghost function Loop(pod: PodState, plans: seq<Plan>): Progress
  {
    Run(MapBytes(pod.annotations), Start(pod), plans)
  }

  ghost function Apply(pod: PodState, plans: seq<Plan>): Outcome
  {
    if Injected(pod) then Outcome(pod, [], [AlreadyInjected])
    else
      var s := Loop(pod, plans);
      Outcome(Finish(s), s.applied, s.warnings)
  }
}
