/**
  The in-place engine: the loops of mutate.go and collisions.go over a `Pod` object, each proved
  to compute the corresponding specification of module `Injection`.
 */
module Engine {
  import opened Text
  import opened Keys
  import opened Bytes
  import opened Pods
  import opened Injection

  /* ---------- read-only searches ---------- */

  method LookupVolume(pod: Pod, name: string) returns (r: Option<VolumeSource>)
    ensures r == FindVolume(pod.volumes, name)
  {
    var vs := pod.volumes;
    for i := 0 to |vs|
      invariant FindVolume(vs, name) == FindVolume(vs[i..], name)
    {
      if vs[i].name == name {
        return Some(vs[i].source);
      }
      assert vs[i..][1..] == vs[i + 1..];
    }
    r := None;
  }

  method LookupContainer(cs: seq<Container>, name: string) returns (r: Option<nat>)
    ensures r == FindContainer(cs, name)
  {
    for i := 0 to |cs|
      invariant forall j :: 0 <= j < i ==> cs[j].name != name
    {
      if cs[i].name == name {
        return Some(i);
      }
    }
    r := None;
  }

  method HasMountPath(c: Container, mountPath: string) returns (r: bool)
    ensures r == FindMount(c.mounts, mountPath).Some?
  {
    for i := 0 to |c.mounts|
      invariant forall j :: 0 <= j < i ==> c.mounts[j].mountPath != mountPath
    {
      if c.mounts[i].mountPath == mountPath {
        return true;
      }
    }
    r := false;
  }

  method HasEnvNamed(c: Container, name: string) returns (r: bool)
    ensures r == HasEnv(c.env, name)
  {
    for i := 0 to |c.env|
      invariant forall j :: 0 <= j < i ==> c.env[j].name != name
    {
      if c.env[i].name == name {
        return true;
      }
    }
    r := false;
  }

  method ParseCommaList(raw: string) returns (names: seq<string>)
    ensures names == CommaNames(raw)
  {
    names := [];
    var parts := Split(raw, ',');
    for i := 0 to |parts|
      invariant names == NonEmptyTrimmed(parts[..i])
    {
      var name := TrimSpace(parts[i]);
      NonEmptyTrimmedAppend(parts[..i], [parts[i]]);
      assert parts[..i + 1] == parts[..i] + [parts[i]];
      if name != "" {
        names := names + [name];
      }
    }
    assert parts[..|parts|] == parts;
  }

  method PlanMountPaths(plan: Plan) returns (paths: seq<string>)
    ensures paths == MountPaths(plan)
  {
    paths := [plan.token.mountPath];
    for i := 0 to |plan.files|
      invariant |paths| == i + 1 && paths[0] == plan.token.mountPath
      invariant forall j :: 0 <= j < i ==> paths[j + 1] == plan.files[j].path
    {
      paths := paths + [plan.files[i].path];
    }
    assert paths == [plan.token.mountPath] + paths[1..];
    assert paths[1..] == FilePaths(plan.files);
  }

  method PlanBytes(plan: Plan) returns (total: nat)
    ensures total == RenderedBytes(plan)
  {
    total := |plan.helperConf|;
    var fs := plan.files;
    for i := 0 to |fs|
      invariant total == |plan.helperConf| + ContentBytes(fs[..i])
    {
      assert fs[..i + 1][..i] == fs[..i];
      total := total + |fs[i].content|;
    }
    assert fs[..|fs|] == fs;
  }

  method RequestedContainers(pod: Pod, plan: Plan) returns (requested: seq<string>)
    ensures var fromPod := ContainersFromAnnotation(pod.annotations);
            requested == if fromPod != [] then fromPod else plan.containers
  {
    hide CommaNames;
    requested := plan.containers;
    if CONTAINERS_ANNOTATION in pod.annotations {
      var fromPod := ParseCommaList(pod.annotations[CONTAINERS_ANNOTATION]);
      if fromPod != [] {
        requested := fromPod;
      }
    }
  }

  method FilterExisting(cs: seq<Container>, shim: string, requested: seq<string>)
    returns (targets: seq<string>, warnings: seq<Warning>)
    ensures targets == Existing(cs, requested)
    ensures warnings == NotFound(cs, shim, requested)
  {
    targets, warnings := [], [];
    for i := 0 to |requested|
      invariant targets == Existing(cs, requested[..i])
      invariant warnings == NotFound(cs, shim, requested[..i])
    {
      assert requested[..i + 1][..i] == requested[..i];
      var c := LookupContainer(cs, requested[i]);
      if c.None? {
        warnings := warnings + [ContainerNotFound(shim, requested[i])];
      } else {
        targets := targets + [requested[i]];
      }
    }
    assert requested[..|requested|] == requested;
  }

  method Targets(pod: Pod, plan: Plan) returns (targets: seq<string>, requested: seq<string>, warnings: seq<Warning>)
    ensures Targeting(targets, requested, warnings) == ResolveTargets(pod.View(), plan)
  {
    hide ContainersFromAnnotation, Existing, NotFound;
    requested := RequestedContainers(pod, plan);
    if requested == [] {
      targets := [];
      for i := 0 to |pod.containers|
        invariant |targets| == i && forall j :: 0 <= j < i ==> targets[j] == pod.containers[j].name
      {
        targets := targets + [pod.containers[i].name];
      }
      assert targets == ContainerNames(pod.containers);
      return targets, [], [];
    }
    targets, warnings := FilterExisting(pod.containers, plan.shimName, requested);
  }

  method FirstPathProblem(c: Container, paths: seq<string>) returns (r: Option<Reason>)
    ensures r == PathProblem(c, paths)
  {
    for i := 0 to |paths|
      invariant PathProblem(c, paths) == PathProblem(c, paths[i..])
    {
      var taken := HasMountPath(c, paths[i]);
      if taken {
        return Some(PathMounted(c.name, paths[i]));
      }
      assert paths[i..][1..] == paths[i + 1..];
    }
    r := None;
  }

  method InitNameTaken(pod: Pod, pending: seq<Container>, name: string) returns (r: bool)
    ensures r == InitTaken(pod.View(), pending, name)
  {
    var here := LookupContainer(pod.initContainers, name);
    var queued := LookupContainer(pending, name);
    r := here.Some? || queued.Some?;
  }

  method FirstMountProblem(pod: Pod, plan: Plan, targets: seq<string>) returns (r: Option<Reason>)
    ensures r == MountProblem(pod.containers, targets, MountPaths(plan))
  {
    for i := 0 to |targets|
      invariant MountProblem(pod.containers, targets, MountPaths(plan))
                == MountProblem(pod.containers, targets[i..], MountPaths(plan))
    {
      assert targets[i..][1..] == targets[i + 1..];
      var c := LookupContainer(pod.containers, targets[i]);
      if c.Some? {
        var paths := PlanMountPaths(plan);
        r := FirstPathProblem(pod.containers[c.value], paths);
        if r.Some? {
          return;
        }
      }
    }
    r := None;
  }

  method FindCollision(pod: Pod, plan: Plan, pending: seq<Container>, targets: seq<string>) returns (r: Option<Reason>)
    ensures r == CheckCollisions(pod.View(), plan, pending, targets)
  {
    var socket := LookupVolume(pod, SOCKET_VOLUME_NAME);
    if socket.Some? {
      if !socket.value.Csi? {
        return Some(SocketNotCsi);
      }
      if socket.value.driver != plan.csiDriver {
        return Some(SocketDriver(socket.value.driver, plan.csiDriver));
      }
    }
    var volumes := [plan.token.volumeName, ConfigVolumeName(plan.shimName)];
    for i := 0 to 2
      invariant forall j :: 0 <= j < i ==> FindVolume(pod.volumes, volumes[j]).None?
    {
      var v := LookupVolume(pod, volumes[i]);
      if v.Some? {
        assert i == 1 ==> FindVolume(pod.volumes, volumes[0]).None?;
        return Some(VolumeExists(volumes[i]));
      }
    }
    assert FindVolume(pod.volumes, volumes[0]).None? && FindVolume(pod.volumes, volumes[1]).None?;
    var inits := [InitContainerName(plan.shimName), RefreshContainerName(plan.shimName)];
    for i := 0 to 2
      invariant forall j :: 0 <= j < i ==> !InitTaken(pod.View(), pending, inits[j])
    {
      var taken := InitNameTaken(pod, pending, inits[i]);
      if taken {
        assert i == 1 ==> !InitTaken(pod.View(), pending, inits[0]);
        return Some(InitContainerExists(inits[i]));
      }
    }
    assert !InitTaken(pod.View(), pending, inits[0]) && !InitTaken(pod.View(), pending, inits[1]);
    r := FirstMountProblem(pod, plan, targets);
  }

  /* ---------- in-place updates ---------- */

  method AddVolumes(pod: Pod, plan: Plan)
    modifies pod`volumes
    ensures pod.volumes == old(pod.volumes) + NewVolumes(old(pod.volumes), plan)
  {
    var socket := LookupVolume(pod, SOCKET_VOLUME_NAME);
    if socket.None? {
      pod.volumes := pod.volumes + [SocketVolume(plan)];
    }
    pod.volumes := pod.volumes + [TokenVolume(plan)];
    var items := [HelperConfItem(plan)];
    for i := 0 to |plan.files|
      invariant items == ConfigItems(plan, i)
    {
      items := items + [FileItem(plan, i)];
    }
    pod.volumes := pod.volumes + [Volume(ConfigVolumeName(plan.shimName), DownwardApi(items))];
  }

  /** One target: the token mount, the file mounts and the environment, then stored back. */
  method InjectIntoContainer(c: Container, plan: Plan) returns (d: Container, warnings: seq<Warning>)
    ensures d == InjectOne(c, plan)
    ensures warnings == EnvWarnings(plan.shimName, c.name, c.env, plan.env)
  {
    d := c.(mounts := c.mounts + [VolumeMount(plan.token.volumeName, plan.token.mountPath, "", true)]);
    for i := 0 to |plan.files|
      invariant d == c.(mounts := c.mounts + PlanMounts(plan, i))
    {
      d := d.(mounts := d.mounts + [FileMount(plan, i)]);
    }
    warnings := [];
    var es := plan.env;
    for i := 0 to |es|
      invariant d == c.(mounts := c.mounts + PlanMounts(plan, |plan.files|), env := AddEnv(c.env, es[..i]))
      invariant warnings == EnvWarnings(plan.shimName, c.name, c.env, es[..i])
    {
      assert es[..i + 1][..i] == es[..i];
      var defined := HasEnvNamed(d, es[i].name);
      if defined {
        warnings := warnings + [EnvLeftUntouched(plan.shimName, d.name, es[i].name)];
      } else {
        d := d.(env := d.env + [es[i]]);
      }
    }
    assert es[..|es|] == es;
  }

  method InjectIntoContainers(pod: Pod, plan: Plan, targets: seq<string>) returns (warnings: seq<Warning>)
    modifies pod`containers
    ensures pod.containers == InjectAll(old(pod.containers), plan, targets)
    ensures warnings == InjectWarnings(old(pod.containers), plan, targets)
  {
    warnings := [];
    for i := 0 to |targets|
      invariant pod.containers == InjectAll(old(pod.containers), plan, targets[..i])
      invariant warnings == InjectWarnings(old(pod.containers), plan, targets[..i])
    {
      assert targets[..i + 1][..i] == targets[..i];
      var c := LookupContainer(pod.containers, targets[i]);
      if c.Some? {
        var d, more := InjectIntoContainer(pod.containers[c.value], plan);
        pod.containers := pod.containers[c.value := d];
        warnings := warnings + more;
      }
    }
    assert targets[..|targets|] == targets;
  }

  method WritePlanMetadata(pod: Pod, plan: Plan)
    modifies pod`annotations, pod`labels
    ensures pod.annotations == WritePayload(old(pod.annotations), plan)
    ensures pod.labels == old(pod.labels)[ShimLabelKey(plan.shimName) :=
                                          if plan.clusterScoped then LABEL_CLUSTER else LABEL_NAMESPACED]
  {
    pod.annotations := pod.annotations[HelperConfAnnotation(plan.shimName) := plan.helperConf];
    ghost var start := pod.annotations;
    for i := 0 to |plan.files|
      invariant pod.annotations == WriteFiles(start, plan, i)
      invariant pod.labels == old(pod.labels)
    {
      pod.annotations := pod.annotations[FileAnnotation(plan.shimName, i) := plan.files[i].content];
    }
    var value := LABEL_NAMESPACED;
    if plan.clusterScoped {
      value := LABEL_CLUSTER;
    }
    pod.labels := pod.labels[ShimLabelKey(plan.shimName) := value];
  }

  /** An accepted plan: volumes, helper containers, target containers and metadata. */
  method InjectAccepted(pod: Pod, plan: Plan, targets: seq<string>) returns (warnings: seq<Warning>)
    modifies pod`volumes, pod`containers, pod`annotations, pod`labels
    ensures pod.View() == InjectPlan(old(pod.View()), plan, targets)
    ensures warnings == InjectWarnings(old(pod.containers), plan, targets)
  {
    AddVolumes(pod, plan);
    warnings := InjectIntoContainers(pod, plan, targets);
    WritePlanMetadata(pod, plan);
  }

  /** One turn of the loop over the plans, with the loop's local variables passed through. */
  method ConsiderPlan(pod: Pod, existing: nat, plan: Plan, s: Progress) returns (t: Progress)
    requires s.pod == pod.View()
    modifies pod`volumes, pod`containers, pod`annotations, pod`labels
    ensures t == Step(existing, s, plan)
    ensures t.pod == pod.View()
  {
    hide CheckCollisions, ResolveTargets, InjectPlan, InjectWarnings;
    var planBytes := PlanBytes(plan);
    var total := existing + s.addedBytes + planBytes;
    if total > MAX_POD_ANNOTATION_BYTES {
      return s.(warnings := s.warnings + [BudgetExceeded(plan.shimKey, total)]);
    }
    var targets, requested, targetWarnings := Targets(pod, plan);
    var warnings := s.warnings + targetWarnings;
    if |requested| > 0 && |targets| == 0 {
      return s.(warnings := warnings + [NoRequestedContainer(plan.shimName, requested)]);
    }
    var reason := FindCollision(pod, plan, s.newInits, targets);
    if reason.Some? {
      return s.(warnings := warnings + [Collision(plan.shimName, reason.value)]);
    }
    var envWarnings := InjectAccepted(pod, plan, targets);
    var newInits := s.newInits + [HelperContainer(plan, false), HelperContainer(plan, true)];
    t := Progress(pod.View(), newInits, s.addedBytes + planBytes, s.applied + [plan], warnings + envWarnings);
  }

  method CollectKeys(applied: seq<Plan>) returns (keys: seq<string>)
    ensures keys == ShimKeys(applied)
  {
    keys := [];
    for i := 0 to |applied|
      invariant |keys| == i && forall j :: 0 <= j < i ==> keys[j] == applied[j].shimKey
    {
      keys := keys + [applied[i].shimKey];
    }
  }

  /** The admission entry point: greedy, in order, all or nothing per plan, and never failing. */
  method ApplyPlans(pod: Pod?, plans: seq<Plan>) returns (applied: seq<Plan>, warnings: seq<Warning>)
    modifies pod
    ensures pod == null ==> applied == [] && warnings == []
    ensures pod != null ==> Outcome(pod.View(), applied, warnings) == Apply(old(pod.View()), plans)
  {
    hide Step, MapBytes, Join;
    applied, warnings := [], [];
    if pod == null {
      return;
    }
    if STATUS_ANNOTATION in pod.annotations && pod.annotations[STATUS_ANNOTATION] == STATUS_INJECTED {
      return [], [AlreadyInjected];
    }
    var existing := SumBytes(pod.annotations);
    var s := Start(pod.View());
    ghost var start := s;
    for i := 0 to |plans|
      invariant s == Run(existing, start, plans[..i]) && s.pod == pod.View()
    {
      assert plans[..i + 1][..i] == plans[..i];
      s := ConsiderPlan(pod, existing, plans[i], s);
    }
    assert plans[..|plans|] == plans;
    applied, warnings := s.applied, s.warnings;
    if |applied| == 0 {
      return;
    }
    pod.initContainers := s.newInits + pod.initContainers;
    var keys := CollectKeys(applied);
    pod.annotations := pod.annotations[STATUS_ANNOTATION := STATUS_INJECTED];
    pod.annotations := pod.annotations[SHIMS_ANNOTATION := Join(keys, ",")];
  }
}
