/**
  End-to-end delivery.  `ReadMounted` is an independent reading of the finished pod, the way a
  node materialises it: mount path, to volume, to downward-API item, to annotation, provided no
  other mount of the container is in the way.  After `Apply` that chain yields each applied
  plan's own rendered content, exactly when the plan's token volume does not take the name of its
  config volume and nothing mounted into the container blocks the path.
 */
module Delivery {
  import opened Text
  import opened Keys
  import opened Bytes
  import opened Pods
  import opened Injection
  import opened Greedy
  import opened Payload
  import opened Mounts
  import opened Paths

  /* ---------- reading a pod ---------- */

  /** The annotation a volume projects at a path inside it. */
  function ProjectedKey(source: VolumeSource, path: string): Option<string>
  {
    if !source.DownwardApi? then None
    else
      match FindItem(source.items, path)
      case None => None
      case Some(item) => AnnotationSelected(item.fieldPath)
  }

  /** A subPath mount shows one item of the volume; a plain mount shows the volume's files. */
  function MountedKey(volumes: seq<Volume>, mounts: seq<VolumeMount>, mountPath: string, file: string): Option<string>
  {
    match FindMount(mounts, mountPath)
    case None => None
    case Some(m) =>
      match FindVolume(volumes, m.name)
      case None => None
      case Some(source) => ProjectedKey(source, if m.subPath == "" then file else m.subPath)
  }

  /** The path read through a mount: the mount path itself, or a file joined to it. */
  function Placed(path: string, file: string): string { if file == "" then path else JoinPath(path, file) }

  /**
    A mount at `at` is in the way of reading `file` inside a mount at `path`: it is read-only and
    lies above, so the mount point cannot be created in it; or it lies at the same place; or it
    lies below, on the way to the file or over it.
   */
  predicate InTheWay(at: string, readOnly: bool, path: string, file: string)
  {
    var a, p := Location(at), Location(path);
    (readOnly && a < p) || a == p || (p < a && a <= Location(Placed(path, file)))
  }

  predicate Obstructs(m: VolumeMount, mount: VolumeMount, file: string)
  {
    m != mount && InTheWay(m.mountPath, m.readOnly, mount.mountPath, file)
  }

  predicate Obstructed(ms: seq<VolumeMount>, mount: VolumeMount, file: string)
  {
    exists m :: m in ms && Obstructs(m, mount, file)
  }

  /** What a container reads through its mount at the path; None when there is nothing to read. */
  function ReadMounted(pod: PodState, c: Container, mountPath: string, file: string): Option<string>
  {
    match FindMount(c.mounts, mountPath)
    case None => None
    case Some(mount) =>
      if Obstructed(c.mounts, mount, file) then None
      else
        match MountedKey(pod.volumes, c.mounts, mountPath, file)
        case None => None
        case Some(key) => if key in pod.annotations then Some(pod.annotations[key]) else None
  }

  predicate Backed(volumes: seq<Volume>, mounts: seq<VolumeMount>, mountPath: string)
  {
    var m := FindMount(mounts, mountPath);
    m.Some? && FindVolume(volumes, m.value.name).Some?
  }

  /** Growth at the end of the lists never redirects a path that already leads somewhere. */
  lemma MountedKeyKept(vs: seq<Volume>, vs': seq<Volume>, ms: seq<VolumeMount>, ms': seq<VolumeMount>,
                       mountPath: string, file: string)
    requires vs <= vs' && ms <= ms' && Backed(vs, ms, mountPath)
    ensures MountedKey(vs', ms', mountPath, file) == MountedKey(vs, ms, mountPath, file)
  {
    assert ms' == ms + ms'[|ms|..];
    FindMountAppend(ms, ms'[|ms|..], mountPath);
    VolumeKept(vs, vs', FindMount(ms, mountPath).value.name);
  }

  /* ---------- one accepted plan ---------- */

  predicate ShadowsConfig(plan: Plan)
  {
    plan.token.volumeName == ConfigVolumeName(plan.shimName)
  }

  lemma ConfigProjects(plan: Plan, i: nat)
    requires i < |plan.files|
    ensures ProjectedKey(ConfigVolume(plan).source, FilesSubPath(i)) == Some(FileAnnotation(plan.shimName, i))
    ensures ProjectedKey(ConfigVolume(plan).source, HELPER_CONF_FILE) == Some(HelperConfAnnotation(plan.shimName))
  {
    var items := ConfigItems(plan, |plan.files|);
    forall j | 0 <= j < i + 1 ensures items[j].path != FilesSubPath(i) {
      if j == 0 {
        FilesSubPathInjective(i, i);
      } else {
        assert items[j] == FileItem(plan, j - 1);
        FilesSubPathInjective(i, j - 1);
      }
    }
    hide AnnotationFieldRef, AnnotationSelected, FilesSubPath;
    assert items[i + 1] == FileItem(plan, i);
    FindItemAt(items, i + 1);
    FindItemAt(items, 0);
    FieldRefRoundTrip(FileAnnotation(plan.shimName, i));
    FieldRefRoundTrip(HelperConfAnnotation(plan.shimName));
  }

  lemma HelperConfProjects(plan: Plan)
    ensures ProjectedKey(ConfigVolume(plan).source, HELPER_CONF_FILE) == Some(HelperConfAnnotation(plan.shimName))
  {
    hide AnnotationFieldRef, AnnotationSelected;
    FindItemAt(ConfigItems(plan, |plan.files|), 0);
    FieldRefRoundTrip(HelperConfAnnotation(plan.shimName));
  }

  /** Which volume the config name resolves to once an unobstructed plan's volumes are added. */
  lemma {:induction false} ConfigVolumeFound(vs: seq<Volume>, plan: Plan)
    requires FindVolume(vs, ConfigVolumeName(plan.shimName)).None?
    ensures FindVolume(vs + NewVolumes(vs, plan), ConfigVolumeName(plan.shimName))
            == Some(if ShadowsConfig(plan) then TokenVolume(plan).source else ConfigVolume(plan).source)
  {
    DerivedNamesApart(plan.shimName, plan.shimName);
    hide ConfigVolumeName, ConfigItems;
    FindVolumeAppend(vs, NewVolumes(vs, plan), ConfigVolumeName(plan.shimName));
    FindInNew(SocketVolume(plan), TokenVolume(plan), ConfigVolume(plan), ConfigVolumeName(plan.shimName));
  }

  lemma {:induction false} FindInNew(socket: Volume, token: Volume, config: Volume, name: string)
    requires socket.name != name && config.name == name
    ensures FindVolume([socket] + [token, config], name)
            == FindVolume([] + [token, config], name)
            == Some(if token.name == name then token.source else config.source)
  {
    var two := [token, config];
    assert [] + two == two;
    assert ([socket] + two)[1..] == two;
    assert two[1..] == [config] && [config][1..] == [];
    assert FindVolume([config], name) == Some(config.source);
    assert FindVolume(two, name) == Some(if token.name == name then token.source else config.source);
  }

  predicate PathsDistinct(plan: Plan) { Distinct(MountPaths(plan)) }

  /** The first mount with a path among appended ones that differ from each other and from the rest. */
  lemma {:induction false} FreshMountFound(own: seq<VolumeMount>, ms: seq<VolumeMount>, all: seq<VolumeMount>, n: nat)
    requires own + ms <= all && n < |ms| && Distinct(MountTargets(ms)) && FindMount(own, ms[n].mountPath).None?
    ensures FindMount(all, ms[n].mountPath) == Some(ms[n])
  {
    assert forall p :: 0 <= p < n ==> MountTargets(ms)[p] != MountTargets(ms)[n];
    FindMountAt(ms, n);
    hide FindMount;
    FindMountAppend(own, ms, ms[n].mountPath);
    MountKept(own + ms, all, ms[n].mountPath);
  }

  /** In a container whose own mounts leave the plan's paths free, each path finds its mount. */
  lemma {:induction false} PlanMountFound(own: seq<VolumeMount>, plan: Plan, all: seq<VolumeMount>, i: nat)
    requires own + PlanMounts(plan, |plan.files|) <= all
    requires forall p :: 0 <= p < |MountPaths(plan)| ==> FindMount(own, MountPaths(plan)[p]).None?
    requires PathsDistinct(plan) && i < |plan.files|
    ensures FindMount(all, plan.files[i].path) == Some(FileMount(plan, i))
  {
    hide FindMount, FilesSubPath, ConfigVolumeName, Distinct;
    var ms := PlanMounts(plan, |plan.files|);
    PlanMountTargets(plan);
    assert ms[i + 1] == FileMount(plan, i) && MountPaths(plan)[i + 1] == plan.files[i].path;
    FreshMountFound(own, ms, all, i + 1);
  }

  lemma AcceptedMeansFree(existing: nat, s: Progress, plan: Plan)
    requires Refusal(existing, s, plan).None?
    ensures FindVolume(s.pod.volumes, plan.token.volumeName).None?
    ensures FindVolume(s.pod.volumes, ConfigVolumeName(plan.shimName)).None?
    ensures !InitTaken(s.pod, s.newInits, InitContainerName(plan.shimName))
    ensures !InitTaken(s.pod, s.newInits, RefreshContainerName(plan.shimName))
    ensures SocketProblem(s.pod, plan).None?
    ensures MountProblem(s.pod.containers, ResolveTargets(s.pod, plan).targets, MountPaths(plan)).None?
  {
    hide ResolveTargets, MountProblem, SocketProblem, InitTaken, ConfigVolumeName, InitContainerName,
         RefreshContainerName;
  }

  lemma {:induction false} FreePaths(cs: seq<Container>, targets: seq<string>, paths: seq<string>, t: nat, p: nat)
    requires MountProblem(cs, targets, paths).None?
    requires t < |targets| && FindContainer(cs, targets[t]).Some? && p < |paths|
    ensures FindMount(cs[FindContainer(cs, targets[t]).value].mounts, paths[p]).None?
  {
    MountProblemIff(cs, targets, paths);
    hide MountProblem, PathProblem;
    assert !Occupied(cs, targets[t], paths);
    PathProblemIff(cs[FindContainer(cs, targets[t]).value], paths);
  }

  /** Right after a plan is applied, each of its file paths leads to the plan's own annotation. */
  lemma FileLinked(existing: nat, s: Progress, plan: Plan, t: nat, i: nat)
    requires Refusal(existing, s, plan).None? && PathsDistinct(plan)
    requires t < |ResolveTargets(s.pod, plan).targets| && i < |plan.files|
    requires FindContainer(s.pod.containers, ResolveTargets(s.pod, plan).targets[t]).Some?
    ensures var r := Step(existing, s, plan).pod;
            var j := FindContainer(s.pod.containers, ResolveTargets(s.pod, plan).targets[t]).value;
            && |r.containers| == |s.pod.containers|
            && FindMount(r.containers[j].mounts, plan.files[i].path) == Some(FileMount(plan, i))
            && Backed(r.volumes, r.containers[j].mounts, plan.files[i].path)
            && MountedKey(r.volumes, r.containers[j].mounts, plan.files[i].path, "")
               == if ShadowsConfig(plan) then None else Some(FileAnnotation(plan.shimName, i))
  {
    StepPod(existing, s, plan);
    AcceptedMeansFree(existing, s, plan);
    var targets := ResolveTargets(s.pod, plan).targets;
    hide Step, Refusal, ResolveTargets, MountProblem, ConfigVolumeName, FileAnnotation, FilesSubPath, WritePayload;
    var cs := s.pod.containers;
    var j := FindContainer(cs, targets[t]).value;
    var r := InjectPlan(s.pod, plan, targets);
    forall p | 0 <= p < |MountPaths(plan)| ensures FindMount(cs[j].mounts, MountPaths(plan)[p]).None? {
      FreePaths(cs, targets, MountPaths(plan), t, p);
    }
    TargetGetsMounts(cs, plan, targets, t);
    hide InjectAll, PlanMounts, MountPaths;
    PlanMountFound(cs[j].mounts, plan, r.containers[j].mounts, i);
    ConfigVolumeFound(s.pod.volumes, plan);
    hide NewVolumes, ConfigItems;
    FilesSubPathInjective(i, i);
    ConfigProjects(plan, i);
  }

  /* ---------- the whole run ---------- */

  /** The turn at which the k-th applied plan was accepted. */
  lemma {:induction false} AcceptedAt(existing: nat, s: Progress, plans: seq<Plan>, k: nat) returns (n: nat)
    requires s.applied == [] && k < |Run(existing, s, plans).applied|
    ensures n < |plans| && plans[n] == Run(existing, s, plans).applied[k]
    ensures Refusal(existing, Run(existing, s, plans[..n]), plans[n]).None?
    ensures |Run(existing, s, plans[..n]).applied| == k
  {
    hide Step, Refusal;
    var m := |plans| - 1;
    var here := Run(existing, s, plans[..m]);
    StepApplied(existing, here, plans[m]);
    if k < |here.applied| {
      n := AcceptedAt(existing, s, plans[..m], k);
      assert plans[..m][..n] == plans[..n];
    } else {
      n := m;
    }
  }

  lemma TargetsExist(pod: PodState, plan: Plan, t: nat)
    requires t < |ResolveTargets(pod, plan).targets|
    ensures FindContainer(pod.containers, ResolveTargets(pod, plan).targets[t]).Some?
  {
    var fromPod := ContainersFromAnnotation(pod.annotations);
    var requested := if fromPod != [] then fromPod else plan.containers;
    if requested == [] {
      assert pod.containers[t].name == ContainerNames(pod.containers)[t];
    } else {
      hide ContainersFromAnnotation;
      ExistingExist(pod.containers, requested, t);
    }
  }

  lemma {:induction false} ExistingExist(cs: seq<Container>, names: seq<string>, t: nat)
    requires t < |Existing(cs, names)|
    ensures FindContainer(cs, Existing(cs, names)[t]).Some?
  {
    if names != [] && t < |Existing(cs, names[..|names| - 1])| {
      ExistingExist(cs, names[..|names| - 1], t);
    }
  }

  ghost function TargetIndex(pod: PodState, plan: Plan, t: nat): (j: nat)
    requires t < |ResolveTargets(pod, plan).targets|
    ensures j < |pod.containers|
    ensures FindContainer(pod.containers, ResolveTargets(pod, plan).targets[t]) == Some(j)
  {
    TargetsExist(pod, plan, t);
    FindContainer(pod.containers, ResolveTargets(pod, plan).targets[t]).value
  }

  lemma {:induction false} FileKeyAtEnd(existing: nat, pod: PodState, plans: seq<Plan>, k: nat, t: nat, i: nat)
    requires k < |Run(existing, Start(pod), plans).applied|
    requires var plan := Run(existing, Start(pod), plans).applied[k];
             PathsDistinct(plan) && t < |ResolveTargets(pod, plan).targets| && i < |plan.files|
    ensures var r := Run(existing, Start(pod), plans);
            var plan := r.applied[k];
            var j := TargetIndex(pod, plan, t);
            && |r.pod.containers| == |pod.containers|
            && FindMount(r.pod.containers[j].mounts, plan.files[i].path) == Some(FileMount(plan, i))
            && MountedKey(r.pod.volumes, r.pod.containers[j].mounts, plan.files[i].path, "")
               == if ShadowsConfig(plan) then None else Some(FileAnnotation(plan.shimName, i))
  {
    hide Step, Refusal, ResolveTargets, ConfigVolumeName, FileAnnotation, MountedKey, PathsDistinct, Backed,
         FileMount, FindMount;
    var s, r := Start(pod), Run(existing, Start(pod), plans);
    var plan := r.applied[k];
    var n := AcceptedAt(existing, s, plans, k);
    var here := Run(existing, s, plans[..n]);
    RunLater(existing, s, plans[..n], 0);
    assert plans[..n][..0] == [];
    TargetsKept(pod, here.pod, plan);
    NamesKept(pod.containers, here.pod.containers);
    FindContainerByNames(pod.containers, here.pod.containers, ResolveTargets(pod, plan).targets[t]);
    var j := TargetIndex(pod, plan, t);
    FileLinked(existing, here, plan, t, i);
    var next := Run(existing, s, plans[..n + 1]);
    assert plans[..n + 1][..n] == plans[..n];
    RunLater(existing, s, plans, n + 1);
    assert Grown(next.pod.containers[j], r.pod.containers[j]);
    MountedKeyKept(next.pod.volumes, r.pod.volumes, next.pod.containers[j].mounts, r.pod.containers[j].mounts,
                   plan.files[i].path, "");
    MountKept(next.pod.containers[j].mounts, r.pod.containers[j].mounts, plan.files[i].path);
  }

  /* ---------- what blocks a mount ---------- */

  /** Something the container mounts itself, or an applied plan that reaches it mounts, is in the way. */
  ghost predicate Blocked(pod: PodState, plans: seq<Plan>, j: nat, mount: VolumeMount, file: string)
    requires j < |pod.containers|
  {
    || Obstructed(pod.containers[j].mounts, mount, file)
    || exists l :: 0 <= l < |plans| && Reaches(pod, plans[l], j) && PlanObstructs(plans[l], mount, file)
  }

  predicate PlanObstructs(plan: Plan, mount: VolumeMount, file: string)
  {
    Obstructed(PlanMounts(plan, |plan.files|), mount, file)
  }

  /** In the finished container a mount is obstructed exactly when the pod or a plan blocks it. */
  lemma {:induction false} BlockedExact(existing: nat, pod: PodState, plans: seq<Plan>, j: nat, mount: VolumeMount,
                                        file: string)
    requires j < |pod.containers|
    ensures var r := Run(existing, Start(pod), plans);
            && |r.pod.containers| == |pod.containers|
            && (Obstructed(r.pod.containers[j].mounts, mount, file) <==> Blocked(pod, r.applied, j, mount, file))
  {
    hide Run, Obstructs, PlanMounts, Reaches;
    RunMountsExact(existing, pod, plans, j);
    var r := Run(existing, Start(pod), plans);
    var ms := r.pod.containers[j].mounts;
    forall m ensures m in ms <==> m in pod.containers[j].mounts || MountedBy(pod, r.applied, j, m) {
      MountMembers(existing, pod, plans, j, m);
    }
    if Obstructed(ms, mount, file) {
      var m :| m in ms && Obstructs(m, mount, file);
      if m !in pod.containers[j].mounts {
        var l :| 0 <= l < |r.applied| && Reaches(pod, r.applied[l], j)
                 && m in PlanMounts(r.applied[l], |r.applied[l].files|);
        assert PlanObstructs(r.applied[l], mount, file);
      }
    }
    if Blocked(pod, r.applied, j, mount, file) && !Obstructed(pod.containers[j].mounts, mount, file) {
      var l :| 0 <= l < |r.applied| && Reaches(pod, r.applied[l], j) && PlanObstructs(r.applied[l], mount, file);
      var m :| m in PlanMounts(r.applied[l], |r.applied[l].files|) && Obstructs(m, mount, file);
      assert MountedBy(pod, r.applied, j, m);
    }
  }

  /**
    Within one plan the builder's path check does its job for clean paths: a token directory other
    than the root is never in the way of a file outside it.
   */
  lemma CleanTokenNotInTheWay(mountPath: string, path: string)
    requires CleanAbsolute(mountPath) && CleanAbsolute(path) && mountPath != "/"
    ensures InTheWay(mountPath, true, path, "") <==> AtOrUnder(mountPath, path)
  {
    AtOrUnderIsAncestor(mountPath, path);
    CleanIsAbsPath(mountPath);
    CleanIsAbsPath(path);
    hide Location, AtOrUnder, CleanAbsolute, AbsPath;
    assert Placed(path, "") == path;
  }

  /**
    End-to-end delivery: in the finished pod, for every applied plan, target container and file,
    reading the file's path gives exactly that plan's content, unless the token volume takes the
    name of the plan's own config volume or the file's mount is blocked; then nothing is readable.
   */
  lemma FilesDelivered(pod: PodState, plans: seq<Plan>, k: nat, t: nat, i: nat)
    requires k < |Apply(pod, plans).applied|
    requires var plan := Apply(pod, plans).applied[k];
             PathsDistinct(plan) && t < |ResolveTargets(pod, plan).targets| && i < |plan.files|
    ensures var out := Apply(pod, plans);
            var plan := out.applied[k];
            var j := TargetIndex(pod, plan, t);
            && |out.pod.containers| == |pod.containers|
            && ReadMounted(out.pod, out.pod.containers[j], plan.files[i].path, "")
               == if ShadowsConfig(plan) || Blocked(pod, out.applied, j, FileMount(plan, i), "") then None
                  else Some(plan.files[i].content)
  {
    hide Run, ResolveTargets, ConfigVolumeName, MountedKey, Payloads, PlanPayload, MapBytes, PathsDistinct, Blocked,
         Obstructed, FindMount, FileMount, FilesSubPath;
    var out := Apply(pod, plans);
    var plan := out.applied[k];
    FileKeyAtEnd(MapBytes(pod.annotations), pod, plans, k, t, i);
    BlockedExact(MapBytes(pod.annotations), pod, plans, TargetIndex(pod, plan, t), FileMount(plan, i), "");
    FileContentKept(pod, plans, k, i);
  }

  /** No later plan and no bookkeeping write touches the annotation of an applied plan's file. */
  lemma FileContentKept(pod: PodState, plans: seq<Plan>, k: nat, i: nat)
    requires k < |Apply(pod, plans).applied| && i < |Apply(pod, plans).applied[k].files|
    ensures var out := Apply(pod, plans);
            var key := FileAnnotation(out.applied[k].shimName, i);
            key in out.pod.annotations && out.pod.annotations[key] == out.applied[k].files[i].content
  {
    hide Apply, Payloads, PlanPayload;
    var out := Apply(pod, plans);
    var plan, key := out.applied[k], FileAnnotation(out.applied[k].shimName, i);
    AppliedMeansNotInjected(pod, plans);
    ApplyAnnotations(pod, plans);
    PayloadEntries(plan);
    PayloadSurvives(out.applied, k, key);
    PayloadsDisjoint(plan, plan, key);
  }

  lemma AppliedMeansNotInjected(pod: PodState, plans: seq<Plan>)
    ensures Apply(pod, plans).applied != [] ==> !Injected(pod)
  {
  }

  /* ---------- the helper's own configuration ---------- */

  /** The helper containers mount three directories at paths nobody compares with each other. */
  predicate HidesHelperConf(plan: Plan)
  {
    || InTheWay(plan.socketMountPath, true, CONFIG_MOUNT_PATH, HELPER_CONF_FILE)
    || InTheWay(plan.token.mountPath, false, CONFIG_MOUNT_PATH, HELPER_CONF_FILE)
    || ShadowsConfig(plan)
  }

  predicate ConfMountTaken(plan: Plan)
  {
    || plan.socketMountPath == CONFIG_MOUNT_PATH
    || plan.token.mountPath == CONFIG_MOUNT_PATH
    || ShadowsConfig(plan)
  }

  function HelperMounts(plan: Plan): seq<VolumeMount>
  {
    [VolumeMount(SOCKET_VOLUME_NAME, plan.socketMountPath, "", true),
     VolumeMount(plan.token.volumeName, plan.token.mountPath, "", false),
     VolumeMount(ConfigVolumeName(plan.shimName), CONFIG_MOUNT_PATH, "", true)]
  }

  lemma HelperMountsAre(plan: Plan, sidecar: bool)
    ensures HelperContainer(plan, sidecar).mounts == HelperMounts(plan)
  {
  }

  lemma SamePathInTheWay(path: string, readOnly: bool, file: string)
    ensures InTheWay(path, readOnly, path, file)
  {
    hide Location;
  }

  /** The configuration's mount is the one found at its path, and free, exactly when nothing is in its way. */
  lemma ConfMountObstructed(plan: Plan)
    ensures var m := FindMount(HelperMounts(plan), CONFIG_MOUNT_PATH);
            m.Some? && (HidesHelperConf(plan)
                        <==> ConfMountTaken(plan) || Obstructed(HelperMounts(plan), m.value, HELPER_CONF_FILE))
  {
    HelperMountsAre(plan, false);
    HelperMountFound(plan, false);
    DerivedNamesApart(plan.shimName, plan.shimName);
    hide HelperContainer, ConfigVolumeName, InTheWay, FindMount;
    SamePathInTheWay(CONFIG_MOUNT_PATH, true, HELPER_CONF_FILE);
    SamePathInTheWay(CONFIG_MOUNT_PATH, false, HELPER_CONF_FILE);
    var ms, config := HelperMounts(plan), VolumeMount(ConfigVolumeName(plan.shimName), CONFIG_MOUNT_PATH, "", true);
    if !ConfMountTaken(plan) {
      assert FindMount(ms, CONFIG_MOUNT_PATH) == Some(config);
      assert ms[0] in ms && ms[1] in ms && forall m :: m in ms ==> m == ms[0] || m == ms[1] || m == config;
    }
  }

  lemma {:induction false} NewVolumeKinds(vs: seq<Volume>, plan: Plan)
    requires FindVolume(vs, plan.token.volumeName).None?
    requires FindVolume(vs, SOCKET_VOLUME_NAME).None? || FindVolume(vs, SOCKET_VOLUME_NAME).value.Csi?
    ensures FindVolume(vs + NewVolumes(vs, plan), SOCKET_VOLUME_NAME).Some?
    ensures FindVolume(vs + NewVolumes(vs, plan), SOCKET_VOLUME_NAME).value.Csi?
    ensures FindVolume(vs + NewVolumes(vs, plan), plan.token.volumeName).Some?
    ensures !FindVolume(vs + NewVolumes(vs, plan), plan.token.volumeName).value.DownwardApi?
  {
    hide ConfigItems, ConfigVolumeName;
    var more := NewVolumes(vs, plan);
    FindVolumeAppend(vs, more, SOCKET_VOLUME_NAME);
    FindVolumeAppend(vs, more, plan.token.volumeName);
    if FindVolume(vs, SOCKET_VOLUME_NAME).None? {
      assert more[0] == SocketVolume(plan) && more[1..][0] == TokenVolume(plan);
    } else {
      assert more[0] == TokenVolume(plan);
    }
  }

  lemma HelperMountFound(plan: Plan, sidecar: bool)
    ensures FindMount(HelperContainer(plan, sidecar).mounts, CONFIG_MOUNT_PATH)
            == Some(if plan.socketMountPath == CONFIG_MOUNT_PATH
                    then VolumeMount(SOCKET_VOLUME_NAME, plan.socketMountPath, "", true)
                    else if plan.token.mountPath == CONFIG_MOUNT_PATH
                    then VolumeMount(plan.token.volumeName, plan.token.mountPath, "", false)
                    else VolumeMount(ConfigVolumeName(plan.shimName), CONFIG_MOUNT_PATH, "", true))
  {
    hide ConfigVolumeName, RefreshContainerName, InitContainerName;
    var ms := HelperContainer(plan, sidecar).mounts;
    var i := if plan.socketMountPath == CONFIG_MOUNT_PATH then 0
             else if plan.token.mountPath == CONFIG_MOUNT_PATH then 1 else 2;
    FindMountAt(ms, i);
  }

  lemma HelperLinked(existing: nat, s: Progress, plan: Plan, sidecar: bool)
    requires Refusal(existing, s, plan).None?
    ensures var vs, ms := Step(existing, s, plan).pod.volumes, HelperContainer(plan, sidecar).mounts;
            && Backed(vs, ms, CONFIG_MOUNT_PATH)
            && MountedKey(vs, ms, CONFIG_MOUNT_PATH, HELPER_CONF_FILE)
               == if ConfMountTaken(plan) then None else Some(HelperConfAnnotation(plan.shimName))
  {
    StepPod(existing, s, plan);
    AcceptedMeansFree(existing, s, plan);
    hide Step, Refusal, ResolveTargets, MountProblem, ConfigVolumeName, HelperConfAnnotation, InjectAll,
         WritePayload, HelperContainer;
    NewVolumeKinds(s.pod.volumes, plan);
    ConfigVolumeFound(s.pod.volumes, plan);
    HelperConfProjects(plan);
    HelperMountFound(plan, sidecar);
    hide NewVolumes, ConfigItems;
  }

  /**
    Both helper containers of every applied plan read that plan's own configuration, exactly when
    neither socket nor token is in the way of it and its volume is not shadowed.
   */
  lemma HelperConfDelivered(pod: PodState, plans: seq<Plan>, k: nat, sidecar: bool)
    requires k < |Apply(pod, plans).applied|
    ensures var out := Apply(pod, plans);
            var plan, at := out.applied[k], if sidecar then 2 * k + 1 else 2 * k;
            && at < |out.pod.initContainers|
            && out.pod.initContainers[at] == HelperContainer(plan, sidecar)
            && ReadMounted(out.pod, out.pod.initContainers[at], CONFIG_MOUNT_PATH, HELPER_CONF_FILE)
               == if HidesHelperConf(plan) then None else Some(plan.helperConf)
  {
    hide Run, MapBytes, HidesHelperConf, ConfMountTaken, MountedKey, HelperContainer, FindMount, Obstructed,
         HelperMounts, HelperConfAnnotation;
    var plan := Apply(pod, plans).applied[k];
    HelperKeyAtEnd(MapBytes(pod.annotations), pod, plans, k, sidecar);
    HelperMountsAre(plan, sidecar);
    ConfMountObstructed(plan);
    HelperConfKept(pod, plans, k);
  }

  lemma HelperConfKept(pod: PodState, plans: seq<Plan>, k: nat)
    requires k < |Apply(pod, plans).applied|
    ensures var out := Apply(pod, plans);
            var key := HelperConfAnnotation(out.applied[k].shimName);
            key in out.pod.annotations && out.pod.annotations[key] == out.applied[k].helperConf
  {
    hide Apply, Payloads, PlanPayload;
    var out := Apply(pod, plans);
    var plan, key := out.applied[k], HelperConfAnnotation(out.applied[k].shimName);
    AppliedMeansNotInjected(pod, plans);
    ApplyAnnotations(pod, plans);
    PayloadEntries(plan);
    PayloadSurvives(out.applied, k, key);
    PayloadsDisjoint(plan, plan, key);
  }

  lemma {:induction false} HelperKeyAtEnd(existing: nat, pod: PodState, plans: seq<Plan>, k: nat, sidecar: bool)
    requires k < |Run(existing, Start(pod), plans).applied|
    ensures var r := Run(existing, Start(pod), plans);
            var plan, at := r.applied[k], if sidecar then 2 * k + 1 else 2 * k;
            && at < |r.newInits|
            && r.newInits[at] == HelperContainer(plan, sidecar)
            && r.pod.initContainers == pod.initContainers
            && MountedKey(r.pod.volumes, r.newInits[at].mounts, CONFIG_MOUNT_PATH, HELPER_CONF_FILE)
               == if ConfMountTaken(plan) then None else Some(HelperConfAnnotation(plan.shimName))
  {
    hide Step, Refusal, ConfMountTaken, HelperConfAnnotation, MountedKey, HelperContainer, Backed, AllGrown,
         SameFilter;
    var s, r := Start(pod), Run(existing, Start(pod), plans);
    var plan := r.applied[k];
    var n := AcceptedAt(existing, s, plans, k);
    var next := Run(existing, s, plans[..n + 1]);
    assert plans[..n + 1][..n] == plans[..n];
    HelperLinked(existing, Run(existing, s, plans[..n]), plan, sidecar);
    RunLater(existing, s, plans, n + 1);
    RunLater(existing, s, plans, 0);
    assert plans[..0] == [];
    QueueIsHelpers(existing, s, plans);
    var ms := HelperContainer(plan, sidecar).mounts;
    MountedKeyKept(next.pod.volumes, r.pod.volumes, ms, ms, CONFIG_MOUNT_PATH, HELPER_CONF_FILE);
  }

  /* ---------- the token itself ---------- */

  /** The path of the token file: what the helper writes and `.tokenPath` names. */
  function TokenPath(tok: Token): string { JoinPath(tok.mountPath, tok.fileName) }

  /**
    At the token path the app reads, read-only, from the in-memory volume that the helper writes:
    in both containers the path lies inside the token mount, and nothing is in the way.
   */
  predicate TokenReaches(pod: PodState, app: Container, helper: Container, plan: Plan)
  {
    var a, h := FindMount(app.mounts, plan.token.mountPath), FindMount(helper.mounts, plan.token.mountPath);
    && a.Some? && h.Some? && a.value.name == h.value.name
    && a.value.readOnly && !h.value.readOnly
    && FindVolume(pod.volumes, a.value.name) == Some(EmptyDir("Memory"))
    && !Obstructed(app.mounts, a.value, plan.token.fileName)
    && !Obstructed(helper.mounts, h.value, plan.token.fileName)
    && Location(a.value.mountPath) < Location(TokenPath(plan.token))
    && Location(h.value.mountPath) < Location(TokenPath(plan.token))
  }

  function TokenMount(plan: Plan): VolumeMount { VolumeMount(plan.token.volumeName, plan.token.mountPath, "", true) }

  /** The file name does not lead out of the token directory, or to the directory itself. */
  predicate TokenInside(plan: Plan)
  {
    Location(plan.token.mountPath) < Location(TokenPath(plan.token))
  }

  /** A plain file name never does, whatever the directory. */
  lemma PlainTokenInside(plan: Plan)
    requires IsAbs(plan.token.mountPath) && ProperSegment(plan.token.fileName)
    ensures TokenInside(plan)
  {
    JoinedBelow(plan.token.mountPath, plan.token.fileName);
  }

  /** The token volume has a name of its own, and in the helpers nothing is in its way. */
  predicate TokenUnobstructed(plan: Plan)
  {
    && TokenInside(plan)
    && plan.token.volumeName != SOCKET_VOLUME_NAME
    && !InTheWay(plan.socketMountPath, true, plan.token.mountPath, plan.token.fileName)
    && !InTheWay(CONFIG_MOUNT_PATH, true, plan.token.mountPath, plan.token.fileName)
  }

  /** In a helper the token mount is the one found at its path, and free, exactly then. */
  lemma TokenMountObstructed(plan: Plan)
    ensures var h := FindMount(HelperMounts(plan), plan.token.mountPath);
            && h.Some?
            && (h.value.name == plan.token.volumeName && !h.value.readOnly
                && !Obstructed(HelperMounts(plan), h.value, plan.token.fileName)
                <==> !InTheWay(plan.socketMountPath, true, plan.token.mountPath, plan.token.fileName)
                     && !InTheWay(CONFIG_MOUNT_PATH, true, plan.token.mountPath, plan.token.fileName))
  {
    HelperMountsAre(plan, false);
    HelperTokenMount(plan, false);
    hide HelperContainer, ConfigVolumeName, InTheWay, FindMount;
    var path, file, ms := plan.token.mountPath, plan.token.fileName, HelperMounts(plan);
    SamePathInTheWay(path, true, file);
    if plan.socketMountPath != path {
      var token := VolumeMount(plan.token.volumeName, path, "", false);
      assert ms[0] in ms && ms[2] in ms && forall m :: m in ms ==> m == ms[0] || m == token || m == ms[2];
    }
  }

  /** What the token volume's name resolves to once the plan's volumes are added. */
  function TokenSource(plan: Plan): VolumeSource
  {
    if plan.token.volumeName == SOCKET_VOLUME_NAME then SocketVolume(plan).source else EmptyDir("Memory")
  }

  lemma {:induction false} TokenVolumeFound(vs: seq<Volume>, plan: Plan)
    requires FindVolume(vs, plan.token.volumeName).None?
    ensures FindVolume(vs + NewVolumes(vs, plan), plan.token.volumeName)
            == Some(TokenSource(plan))
  {
    hide ConfigItems, ConfigVolumeName;
    var more := NewVolumes(vs, plan);
    FindVolumeAppend(vs, more, plan.token.volumeName);
    if FindVolume(vs, SOCKET_VOLUME_NAME).None? {
      assert more[0] == SocketVolume(plan) && more[1..][0] == TokenVolume(plan);
    } else {
      assert more[0] == TokenVolume(plan);
    }
  }

  lemma HelperTokenMount(plan: Plan, sidecar: bool)
    ensures FindMount(HelperContainer(plan, sidecar).mounts, plan.token.mountPath)
            == Some(if plan.socketMountPath == plan.token.mountPath
                    then VolumeMount(SOCKET_VOLUME_NAME, plan.socketMountPath, "", true)
                    else VolumeMount(plan.token.volumeName, plan.token.mountPath, "", false))
  {
    hide ConfigVolumeName, RefreshContainerName, InitContainerName;
    FindMountAt(HelperContainer(plan, sidecar).mounts, if plan.socketMountPath == plan.token.mountPath then 0 else 1);
  }

  lemma TokenLinked(existing: nat, s: Progress, plan: Plan, t: nat)
    requires Refusal(existing, s, plan).None?
    requires t < |ResolveTargets(s.pod, plan).targets|
    requires FindContainer(s.pod.containers, ResolveTargets(s.pod, plan).targets[t]).Some?
    ensures var r := Step(existing, s, plan).pod;
            var j := FindContainer(s.pod.containers, ResolveTargets(s.pod, plan).targets[t]).value;
            && |r.containers| == |s.pod.containers|
            && FindMount(r.containers[j].mounts, plan.token.mountPath)
               == Some(TokenMount(plan))
            && FindVolume(r.volumes, plan.token.volumeName)
               == Some(TokenSource(plan))
  {
    StepPod(existing, s, plan);
    AcceptedMeansFree(existing, s, plan);
    var targets := ResolveTargets(s.pod, plan).targets;
    hide Step, Refusal, ResolveTargets, MountProblem, ConfigVolumeName, WritePayload;
    var cs := s.pod.containers;
    var j := FindContainer(cs, targets[t]).value;
    FreePaths(cs, targets, MountPaths(plan), t, 0);
    TargetGetsMounts(cs, plan, targets, t);
    TokenVolumeFound(s.pod.volumes, plan);
    hide InjectAll, NewVolumes, PlanMounts, SocketVolume;
    TokenMountFound(cs[j].mounts, plan, InjectPlan(s.pod, plan, targets).containers[j].mounts);
  }

  lemma {:induction false} TokenMountFound(own: seq<VolumeMount>, plan: Plan, all: seq<VolumeMount>)
    requires own + PlanMounts(plan, |plan.files|) <= all
    requires FindMount(own, plan.token.mountPath).None?
    ensures FindMount(all, plan.token.mountPath) == Some(TokenMount(plan))
  {
    var ms := PlanMounts(plan, |plan.files|);
    assert ms[0] == TokenMount(plan);
    hide PlanMounts;
    FindMountAt(ms, 0);
    MountKept(own + ms, all, plan.token.mountPath);
    FindMountAppend(own, ms, plan.token.mountPath);
  }

  lemma {:induction false} MountKept(ms: seq<VolumeMount>, ms': seq<VolumeMount>, mountPath: string)
    requires ms <= ms'
    ensures FindMount(ms, mountPath).Some? ==> FindMount(ms', mountPath) == FindMount(ms, mountPath)
  {
    assert ms' == ms + ms'[|ms|..];
    FindMountAppend(ms, ms'[|ms|..], mountPath);
  }

  /**
    For every applied plan the token reaches every target container, from both helper containers,
    exactly when the file name stays inside the token directory, the token volume is not named
    like the socket volume, nothing is in the way of the token in the helpers, and nothing blocks
    it in the app container.
   */
  lemma TokenDelivered(pod: PodState, plans: seq<Plan>, k: nat, t: nat, sidecar: bool)
    requires k < |Apply(pod, plans).applied|
    requires t < |ResolveTargets(pod, Apply(pod, plans).applied[k]).targets|
    ensures var out := Apply(pod, plans);
            var plan, at := out.applied[k], if sidecar then 2 * k + 1 else 2 * k;
            var j := TargetIndex(pod, plan, t);
            && |out.pod.containers| == |pod.containers| && at < |out.pod.initContainers|
            && (TokenReaches(out.pod, out.pod.containers[j], out.pod.initContainers[at], plan)
                <==> TokenUnobstructed(plan)
                     && !Blocked(pod, out.applied, j, TokenMount(plan), plan.token.fileName))
  {
    hide Run, ResolveTargets, MapBytes, HelperContainer, ReadMounted, HidesHelperConf, Blocked, Obstructed,
         HelperMounts, FindMount, InTheWay, Location, TokenPath;
    var plan := Apply(pod, plans).applied[k];
    HelperFoundAtPath(plan);
    TokenAtEnd(MapBytes(pod.annotations), pod, plans, k, t);
    HelperConfDelivered(pod, plans, k, sidecar);
    HelperMountsAre(plan, sidecar);
    TokenMountObstructed(plan);
    BlockedExact(MapBytes(pod.annotations), pod, plans, TargetIndex(pod, plan, t), TokenMount(plan),
                 plan.token.fileName);
  }

  lemma HelperFoundAtPath(plan: Plan)
    ensures var h := FindMount(HelperMounts(plan), plan.token.mountPath);
            h.Some? && h.value.mountPath == plan.token.mountPath
  {
    HelperMountsAre(plan, false);
    HelperTokenMount(plan, false);
  }

  lemma {:induction false} TokenAtEnd(existing: nat, pod: PodState, plans: seq<Plan>, k: nat, t: nat)
    requires k < |Run(existing, Start(pod), plans).applied|
    requires t < |ResolveTargets(pod, Run(existing, Start(pod), plans).applied[k]).targets|
    ensures var r := Run(existing, Start(pod), plans);
            var plan := r.applied[k];
            var j := TargetIndex(pod, plan, t);
            && |r.pod.containers| == |pod.containers|
            && FindMount(r.pod.containers[j].mounts, plan.token.mountPath)
               == Some(TokenMount(plan))
            && FindVolume(r.pod.volumes, plan.token.volumeName)
               == Some(TokenSource(plan))
  {
    hide Step, Refusal, ResolveTargets, TokenSource, TokenMount, FindMount, FindVolume;
    var s, r := Start(pod), Run(existing, Start(pod), plans);
    var plan := r.applied[k];
    var n := AcceptedAt(existing, s, plans, k);
    var here := Run(existing, s, plans[..n]);
    RunLater(existing, s, plans[..n], 0);
    assert plans[..n][..0] == [];
    TargetsKept(pod, here.pod, plan);
    NamesKept(pod.containers, here.pod.containers);
    FindContainerByNames(pod.containers, here.pod.containers, ResolveTargets(pod, plan).targets[t]);
    var j := TargetIndex(pod, plan, t);
    TokenLinked(existing, here, plan, t);
    var next := Run(existing, s, plans[..n + 1]);
    assert plans[..n + 1][..n] == plans[..n];
    RunLater(existing, s, plans, n + 1);
    assert Grown(next.pod.containers[j], r.pod.containers[j]);
    MountKept(next.pod.containers[j].mounts, r.pod.containers[j].mounts, plan.token.mountPath);
    VolumeKept(next.pod.volumes, r.pod.volumes, plan.token.volumeName);
  }

  /* ---------- the agent's socket ---------- */

  /** Where the helper's configuration says the agent listens. */
  function AgentPath(plan: Plan): string { JoinPath(plan.socketMountPath, plan.socketFile) }

  /** At that path the helper finds a volume of the plan's CSI driver, with nothing in the way. */
  predicate SocketReached(pod: PodState, helper: Container, plan: Plan)
  {
    var m := FindMount(helper.mounts, plan.socketMountPath);
    && m.Some? && (var source := FindVolume(pod.volumes, m.value.name);
                   source.Some? && source.value.Csi? && source.value.driver == plan.csiDriver)
    && !Obstructed(helper.mounts, m.value, plan.socketFile)
    && Location(m.value.mountPath) < Location(AgentPath(plan))
  }

  predicate SocketUnobstructed(plan: Plan)
  {
    && Location(plan.socketMountPath) < Location(AgentPath(plan))
    && !InTheWay(plan.token.mountPath, false, plan.socketMountPath, plan.socketFile)
    && !InTheWay(CONFIG_MOUNT_PATH, true, plan.socketMountPath, plan.socketFile)
  }

  lemma SocketMountObstructed(plan: Plan)
    ensures var m := VolumeMount(SOCKET_VOLUME_NAME, plan.socketMountPath, "", true);
            && FindMount(HelperMounts(plan), plan.socketMountPath) == Some(m)
            && (!Obstructed(HelperMounts(plan), m, plan.socketFile)
                <==> !InTheWay(plan.token.mountPath, false, plan.socketMountPath, plan.socketFile)
                     && !InTheWay(CONFIG_MOUNT_PATH, true, plan.socketMountPath, plan.socketFile))
  {
    DerivedNamesApart(plan.shimName, plan.shimName);
    FindMountAt(HelperMounts(plan), 0);
    hide ConfigVolumeName, InTheWay, FindMount;
    var ms := HelperMounts(plan);
    assert ms[1] in ms && ms[2] in ms && forall m :: m in ms ==> m == ms[0] || m == ms[1] || m == ms[2];
  }

  lemma {:induction false} SocketVolumeFound(vs: seq<Volume>, plan: Plan)
    requires var socket := FindVolume(vs, SOCKET_VOLUME_NAME);
             socket.Some? ==> socket.value.Csi? && socket.value.driver == plan.csiDriver
    ensures var socket := FindVolume(vs + NewVolumes(vs, plan), SOCKET_VOLUME_NAME);
            socket.Some? && socket.value.Csi? && socket.value.driver == plan.csiDriver
  {
    hide ConfigItems, ConfigVolumeName;
    var more := NewVolumes(vs, plan);
    FindVolumeAppend(vs, more, SOCKET_VOLUME_NAME);
    if FindVolume(vs, SOCKET_VOLUME_NAME).None? {
      assert more[0] == SocketVolume(plan);
    }
  }

  lemma {:induction false} SocketAtEnd(existing: nat, pod: PodState, plans: seq<Plan>, k: nat)
    requires k < |Run(existing, Start(pod), plans).applied|
    ensures var r := Run(existing, Start(pod), plans);
            var socket := FindVolume(r.pod.volumes, SOCKET_VOLUME_NAME);
            socket.Some? && socket.value.Csi? && socket.value.driver == r.applied[k].csiDriver
  {
    hide Step, Refusal, ResolveTargets, NewVolumes, InjectAll, WritePayload, FindVolume, AllGrown, SameFilter;
    var s, r := Start(pod), Run(existing, Start(pod), plans);
    var plan := r.applied[k];
    var n := AcceptedAt(existing, s, plans, k);
    var here, next := Run(existing, s, plans[..n]), Run(existing, s, plans[..n + 1]);
    AcceptedMeansFree(existing, here, plan);
    SocketVolumeFound(here.pod.volumes, plan);
    assert plans[..n + 1][..n] == plans[..n];
    StepPod(existing, here, plan);
    RunLater(existing, s, plans, n + 1);
    VolumeKept(next.pod.volumes, r.pod.volumes, SOCKET_VOLUME_NAME);
  }

  /**
    Both helpers of every applied plan find the agent's socket where their configuration says it
    is, on a volume of the plan's own driver, exactly when the socket file stays inside its
    directory and neither the token nor the configuration is in the way.
   */
  lemma SocketDelivered(pod: PodState, plans: seq<Plan>, k: nat, sidecar: bool)
    requires k < |Apply(pod, plans).applied|
    ensures var out := Apply(pod, plans);
            var plan, at := out.applied[k], if sidecar then 2 * k + 1 else 2 * k;
            && at < |out.pod.initContainers|
            && (SocketReached(out.pod, out.pod.initContainers[at], plan) <==> SocketUnobstructed(plan))
  {
    hide Run, MapBytes, HelperContainer, ReadMounted, HidesHelperConf, Obstructed, HelperMounts, FindMount, InTheWay,
         Location, AgentPath, FindVolume;
    var plan := Apply(pod, plans).applied[k];
    SocketAtEnd(MapBytes(pod.annotations), pod, plans, k);
    HelperConfDelivered(pod, plans, k, sidecar);
    HelperMountsAre(plan, sidecar);
    SocketMountObstructed(plan);
  }
}
