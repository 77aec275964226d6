/**
  The finished pod, field by field.  What every applied plan leaves in it is written out here as
  it would appear in the pod's manifest: the two helper containers and how each of them runs, the
  volumes and the annotations they project, and the mounts of the app containers.
 */
module Manifest {
  import opened Text
  import opened Keys
  import Bytes
  import opened Pods
  import opened FileModes
  import opened Injection
  import opened Greedy
  import opened Mounts
  import opened Frame
  import opened Delivery
  import opened Decisions
  import opened Paths

  /* ---------- the helper containers ---------- */

  const DAEMON_OFF := "-daemon-mode=false"

  /** Fetches the token once and ends, so that the pod's other containers can start. */
  predicate RunsToCompletion(c: Container)
  {
    c.restartPolicy.None? && DAEMON_OFF in c.args
  }

  /** A native sidecar that stays up and refreshes the token. */
  predicate KeepsRunning(c: Container)
  {
    c.restartPolicy == Some("Always") && DAEMON_OFF !in c.args
  }

  /** Runs the plan's image with the configuration found at that path, and nothing else set. */
  predicate StartsHelper(c: Container, plan: Plan, conf: string)
  {
    && c.image == plan.helperImage
    && |c.args| >= 2 && c.args[0] == "-config" && c.args[1] == conf
    && (forall i :: 2 <= i < |c.args| ==> c.args[i] == DAEMON_OFF)
    && c.env == []
  }

  /** Socket and configuration are mounted read-only, the token directory for writing. */
  predicate MountsHelper(c: Container, plan: Plan)
  {
    && |c.mounts| == 3
    && c.mounts[0] == VolumeMount("spiffe-workload-api", plan.socketMountPath, "", true)
    && c.mounts[1] == VolumeMount(plan.token.volumeName, plan.token.mountPath, "", false)
    && c.mounts[2] == VolumeMount("oidcshim-config-" + plan.shimName, "/etc/oidcshim", "", true)
  }

  /** The path in the arguments is the one the configuration is read at. */
  lemma ConfPathJoined()
    ensures Placed(CONFIG_MOUNT_PATH, HELPER_CONF_FILE) == HELPER_CONF_PATH == "/etc/oidcshim/helper.conf"
  {
    TwoSegments("etc", "oidcshim");
    hide JoinPath, Join;
    var base := ["etc", "oidcshim"];
    assert ProperSegment("etc") && ProperSegment("oidcshim") && ProperSegment(HELPER_CONF_FILE);
    JoinSegment(base, HELPER_CONF_FILE);
    assert AbsPath(base) == CONFIG_MOUNT_PATH;
  }

  lemma HelperFields(plan: Plan, sidecar: bool)
    ensures var c := HelperContainer(plan, sidecar);
            && c.name == (if sidecar then "oidcshim-refresh-" else "oidcshim-init-") + plan.shimName
            && (if sidecar then KeepsRunning(c) else RunsToCompletion(c))
            && StartsHelper(c, plan, HELPER_CONF_PATH) && MountsHelper(c, plan)
  {
    var c := HelperContainer(plan, sidecar);
    assert |HELPER_CONF_PATH| != |DAEMON_OFF| && c.args[0] != DAEMON_OFF;
    if !sidecar {
      assert c.args[2] == DAEMON_OFF;
    }
  }

  /** A helper of the plan, started with the path at which it reads the plan's own configuration. */
  predicate Helps(pod: PodState, c: Container, plan: Plan)
  {
    && StartsHelper(c, plan, Placed("/etc/oidcshim", "helper.conf")) && MountsHelper(c, plan)
    && ReadMounted(pod, c, "/etc/oidcshim", "helper.conf")
       == if HidesHelperConf(plan) then None else Some(plan.helperConf)
  }

  /**
    For every applied plan the pod starts with a container that runs to completion and one that
    keeps running, in that order, both from the plan's image.  Each is started with the path at
    which it reads the plan's own configuration, unless something hides that from it.
   */
  lemma HelpersRun(pod: PodState, plans: seq<Plan>, k: nat)
    requires k < |Apply(pod, plans).applied|
    ensures var out := Apply(pod, plans);
            var plan, inits := out.applied[k], out.pod.initContainers;
            && |inits| == 2 * |out.applied| + |pod.initContainers|
            && (var once, on := inits[2 * k], inits[2 * k + 1];
                && once.name == "oidcshim-init-" + plan.shimName && RunsToCompletion(once)
                && on.name == "oidcshim-refresh-" + plan.shimName && KeepsRunning(on)
                && Helps(out.pod, once, plan) && Helps(out.pod, on, plan))
  {
    hide Apply, HelperContainer, StartsHelper, MountsHelper, ReadMounted, HidesHelperConf, Placed, AllGrown;
    ApplyFrame(pod, plans);
    ConfPathJoined();
    var plan := Apply(pod, plans).applied[k];
    HelperConfDelivered(pod, plans, k, false);
    HelperConfDelivered(pod, plans, k, true);
    HelperFields(plan, false);
    HelperFields(plan, true);
  }

  /* ---------- the volumes ---------- */

  /** How a field path names one annotation. */
  function Subscript(key: string): string { "metadata.annotations['" + key + "']" }

  /** Item 0 projects the helper's configuration, item i + 1 the i-th file with its mode. */
  predicate ProjectsPlan(items: seq<DownwardItem>, plan: Plan)
  {
    && |items| == |plan.files| + 1
    && items[0] == DownwardItem("helper.conf", Subscript("oidcshim.kemo.dev/helper-conf-" + plan.shimName), None)
    && forall i :: 0 <= i < |plan.files| ==> ProjectsFile(items[1..][i], plan, i)
  }

  predicate ProjectsFile(item: DownwardItem, plan: Plan, i: nat)
    requires i < |plan.files|
  {
    && item.path == "files/" + Itoa(i)
    && item.fieldPath == Subscript("oidcshim.kemo.dev/file-" + plan.shimName + "-" + Itoa(i))
    && item.mode.Some?
    && (MatchesModePattern(plan.files[i].mode) ==> item.mode.value == OctalValue(plan.files[i].mode))
  }

  lemma ConfItemFields(plan: Plan)
    ensures HelperConfItem(plan)
            == DownwardItem("helper.conf", Subscript("oidcshim.kemo.dev/helper-conf-" + plan.shimName), None)
  {
    assert HELPER_CONF_ANNOTATION_PREFIX == "oidcshim.kemo.dev/helper-conf-";
  }

  lemma FileItemFields(plan: Plan, i: nat)
    requires i < |plan.files|
    ensures ProjectsFile(FileItem(plan, i), plan, i)
  {
    hide Itoa, OctalValue;
    var mode := plan.files[i].mode;
    if MatchesModePattern(mode) {
      PatternParses(mode);
    }
    hide MatchesModePattern, ParseFileMode;
    assert FILE_ANNOTATION_PREFIX == "oidcshim.kemo.dev/file-";
    assert FILES_SUB_PATH_DIR + "/" == "files/";
  }

  lemma ConfigProjectsPlan(plan: Plan)
    ensures ConfigVolume(plan).name == "oidcshim-config-" + plan.shimName
    ensures ConfigVolume(plan).source.DownwardApi? && ProjectsPlan(ConfigVolume(plan).source.items, plan)
  {
    hide ProjectsFile, FileItem, HelperConfItem;
    ConfItemFields(plan);
    var items := ConfigVolume(plan).source.items;
    forall i | 0 <= i < |plan.files| ensures ProjectsFile(items[1..][i], plan, i) {
      assert items[1..][i] == items[i + 1] == FileItem(plan, i);
      FileItemFields(plan, i);
    }
  }

  lemma {:induction false} PairAt(plans: seq<Plan>, k: nat)
    requires k < |plans|
    ensures |PairsOf(plans)| == 2 * |plans|
    ensures PairsOf(plans)[2 * k] == TokenVolume(plans[k]) && PairsOf(plans)[2 * k + 1] == ConfigVolume(plans[k])
  {
    hide TokenVolume, ConfigVolume;
    var n := |plans| - 1;
    if k < n {
      PairAt(plans[..n], k);
    } else if n > 0 {
      PairAt(plans[..n], 0);
    }
  }

  predicate HasSocket(vs: seq<Volume>)
  {
    exists i :: 0 <= i < |vs| && vs[i].name == "spiffe-workload-api"
  }

  /** The plan's two volumes: the token's directory in memory, and the annotations projected. */
  predicate PlanVolumes(token: Volume, config: Volume, plan: Plan)
  {
    && token == Volume(plan.token.volumeName, EmptyDir("Memory"))
    && config.name == "oidcshim-config-" + plan.shimName
    && config.source.DownwardApi? && ProjectsPlan(config.source.items, plan)
  }

  lemma PlanVolumesAre(plan: Plan)
    ensures PlanVolumes(TokenVolume(plan), ConfigVolume(plan), plan)
  {
    ConfigProjectsPlan(plan);
  }

  /** The volumes added: a read-only socket of the first plan's driver if missing, then two per plan. */
  predicate VolumesListing(own: seq<Volume>, added: seq<Volume>, plans: seq<Plan>, k: nat)
    requires k < |plans|
  {
    var first := if HasSocket(own) then 0 else 1;
    && |added| == first + 2 * |plans|
    && (first == 1 ==> added[0] == Volume("spiffe-workload-api", Csi(plans[0].csiDriver, true)))
    && PlanVolumes(added[first + 2 * k], added[first + 2 * k + 1], plans[k])
  }

  lemma {:induction false} AddedListing(own: seq<Volume>, plans: seq<Plan>, k: nat)
    requires k < |plans|
    ensures VolumesListing(own, VolumesAdded(own, plans), plans, k)
  {
    hide PlanVolumes, PairsOf, FindVolume, TokenVolume, ConfigVolume;
    PairAt(plans, k);
    PlanVolumesAre(plans[k]);
  }

  /** The pod's own volumes come first; those of every applied plan follow, with the fields as written. */
  lemma VolumesListed(pod: PodState, plans: seq<Plan>, k: nat)
    requires k < |Apply(pod, plans).applied|
    ensures var out := Apply(pod, plans);
            && pod.volumes <= out.pod.volumes
            && VolumesListing(pod.volumes, out.pod.volumes[|pod.volumes|..], out.applied, k)
  {
    hide VolumesListing;
    AppliedMeansNotInjected(pod, plans);
    VolumesOf(pod, plans);
    hide Apply, VolumesAdded;
    AddedListing(pod.volumes, Apply(pod, plans).applied, k);
  }

  lemma VolumesOf(pod: PodState, plans: seq<Plan>)
    requires !Injected(pod)
    ensures Apply(pod, plans).pod.volumes == pod.volumes + VolumesAdded(pod.volumes, Apply(pod, plans).applied)
  {
    hide Run, VolumesAdded;
    RunVolumesExact(Bytes.MapBytes(pod.annotations), Start(pod), plans);
  }

  /* ---------- the mounts of an app container ---------- */

  /** The token read-only, or one of the files read-only at its path through its own item. */
  predicate MountOf(plan: Plan, m: VolumeMount)
  {
    || m == VolumeMount(plan.token.volumeName, plan.token.mountPath, "", true)
    || exists i :: 0 <= i < |plan.files| && m == FileMountOf(plan, i)
  }

  function FileMountOf(plan: Plan, i: nat): VolumeMount
    requires i < |plan.files|
  {
    VolumeMount("oidcshim-config-" + plan.shimName, plan.files[i].path, "files/" + Itoa(i), true)
  }

  lemma {:induction false} PlanMountsAre(plan: Plan, m: VolumeMount)
    ensures m in PlanMounts(plan, |plan.files|) <==> MountOf(plan, m)
  {
    var ms := PlanMounts(plan, |plan.files|);
    assert FILES_SUB_PATH_DIR + "/" == "files/";
    forall i | 0 <= i < |plan.files| ensures ms[i + 1] == FileMountOf(plan, i) {
      assert ms[i + 1] == FileMount(plan, i);
    }
    hide PlanMounts, FileMountOf;
    if m in ms {
      var n :| 0 <= n < |ms| && ms[n] == m;
      assert n > 0 ==> ms[n - 1 + 1] == FileMountOf(plan, n - 1);
    }
  }

  /** An applied plan goes into the container: it is the first of its name, and asked for or nothing is. */
  ghost predicate GoesInto(pod: PodState, plan: Plan, j: nat)
  {
    exists names :: && Asked(pod, plan, names) && FirstNamed(pod.containers, j)
                    && (names == [] || pod.containers[j].name in names)
  }

  ghost predicate MountedFor(pod: PodState, plans: seq<Plan>, j: nat, m: VolumeMount)
  {
    exists k :: 0 <= k < |plans| && GoesInto(pod, plans[k], j) && MountOf(plans[k], m)
  }

  lemma GoesIntoExact(pod: PodState, plan: Plan, j: nat)
    ensures GoesInto(pod, plan, j) <==> Reaches(pod, plan, j)
  {
    hide Asked, Reaches, FirstNamed;
    var names := AskedNames(pod, plan);
    ReachesExact(pod, plan, j, names);
    forall other | Asked(pod, plan, other) ensures other == names {
      AskedOnce(pod, plan, other, names);
    }
  }

  /** A finished container mounts what it did, and what the applied plans that go into it add. */
  lemma {:induction false} MountedExact(pod: PodState, plans: seq<Plan>, j: nat, m: VolumeMount)
    requires j < |pod.containers|
    ensures var out := Apply(pod, plans);
            && |out.pod.containers| == |pod.containers|
            && (m in out.pod.containers[j].mounts
                <==> m in pod.containers[j].mounts || MountedFor(pod, out.applied, j, m))
  {
    var applied := Apply(pod, plans).applied;
    if !Injected(pod) {
      MountMembers(Bytes.MapBytes(pod.annotations), pod, plans, j, m);
    }
    hide Run, GoesInto, MountOf, Reaches, PlanMounts;
    forall k | 0 <= k < |applied|
      ensures GoesInto(pod, applied[k], j) <==> Reaches(pod, applied[k], j)
      ensures MountOf(applied[k], m) <==> m in PlanMounts(applied[k], |applied[k].files|)
    {
      GoesIntoExact(pod, applied[k], j);
      PlanMountsAre(applied[k], m);
    }
  }
}
