/**
  Rules of the API server the finished pod has to meet: distinct volume names, distinct container
  names across init and app containers, distinct mount paths in every container, names that are
  labels, file modes that are modes, and annotations within the size limit.  Each is shown to be
  kept exactly under the condition stated beside it; module `Witnesses` has a shim and a pod that
  violate each condition the code does not enforce.  Distinct variable names, which the API server
  does not insist on, are kept without any condition.
 */
module Uniqueness {
  import opened Text
  import opened Keys
  import opened Bytes
  import opened Pods
  import opened Injection
  import opened Greedy
  import opened Payload
  import opened Mounts
  import opened Frame
  import opened FileModes
  import opened Delivery

  /* ---------- inserting into a duplicate-free list ---------- */

  lemma DistinctInsert<T>(a: seq<T>, m: seq<T>, b: seq<T>)
    requires forall x :: x in m ==> x !in a && x !in b
    ensures Distinct(a + m + b) <==> Distinct(a + b) && Distinct(m)
  {
    var all, rest := a + m + b, a + b;
    if Distinct(all) {
      forall i, j | 0 <= i < j < |rest| ensures rest[i] != rest[j] {
        var i', j' := if i < |a| then i else i + |m|, if j < |a| then j else j + |m|;
        assert all[i'] == rest[i] && all[j'] == rest[j];
      }
      forall i, j | 0 <= i < j < |m| ensures m[i] != m[j] {
        assert all[|a| + i] == m[i] && all[|a| + j] == m[j];
      }
    }
    if Distinct(rest) && Distinct(m) {
      forall i, j | 0 <= i < j < |all| ensures all[i] != all[j] {
        DistinctAcross(a, m, b, i, j);
      }
    }
  }

  lemma DistinctAcross<T>(a: seq<T>, m: seq<T>, b: seq<T>, i: nat, j: nat)
    requires forall x :: x in m ==> x !in a && x !in b
    requires Distinct(a + b) && Distinct(m)
    requires i < j < |a + m + b|
    ensures (a + m + b)[i] != (a + m + b)[j]
  {
    var all, rest := a + m + b, a + b;
    var inM := (k: int) => |a| <= k < |a| + |m|;
    if inM(i) {
      assert all[i] == m[i - |a|] && all[i] in m;
      if inM(j) {
        assert all[j] == m[j - |a|];
      } else {
        assert all[j] == b[j - |a| - |m|] && all[j] in b;
      }
    } else if inM(j) {
      assert all[j] == m[j - |a|] && all[j] in m;
      assert all[i] == a[i] && all[i] in a;
    } else {
      var i', j' := if i < |a| then i else i - |m|, if j < |a| then j else j - |m|;
      assert rest[i'] == all[i] && rest[j'] == all[j];
    }
  }

  lemma DistinctAppend<T>(a: seq<T>, m: seq<T>)
    requires forall x :: x in m ==> x !in a
    ensures Distinct(a + m) <==> Distinct(a) && Distinct(m)
  {
    DistinctInsert(a, m, []);
    assert a + m + [] == a + m && a + [] == a;
  }

  /* ---------- volumes ---------- */

  lemma VolumeNamesAppend(a: seq<Volume>, b: seq<Volume>)
    ensures VolumeNames(a + b) == VolumeNames(a) + VolumeNames(b)
  {
  }

  lemma {:induction false} NameFree(vs: seq<Volume>, name: string)
    requires FindVolume(vs, name).None?
    ensures name !in VolumeNames(vs)
  {
  }

  /** A token volume name the code never compares: the socket's, or the plan's own config volume's. */
  predicate TokenNameApart(plan: Plan)
  {
    plan.token.volumeName != SOCKET_VOLUME_NAME && plan.token.volumeName != ConfigVolumeName(plan.shimName)
  }

  lemma {:induction false} NewVolumesDistinct(vs: seq<Volume>, plan: Plan)
    requires FindVolume(vs, plan.token.volumeName).None?
    requires FindVolume(vs, ConfigVolumeName(plan.shimName)).None?
    ensures Distinct(VolumeNames(vs + NewVolumes(vs, plan))) <==> Distinct(VolumeNames(vs)) && TokenNameApart(plan)
  {
    DerivedNamesApart(plan.shimName, plan.shimName);
    hide ConfigVolumeName, ConfigItems;
    var token, config := plan.token.volumeName, ConfigVolumeName(plan.shimName);
    var more := NewVolumes(vs, plan);
    VolumeNamesAppend(vs, more);
    NameFree(vs, token);
    NameFree(vs, config);
    if FindVolume(vs, SOCKET_VOLUME_NAME).None? {
      NameFree(vs, SOCKET_VOLUME_NAME);
      assert VolumeNames(more) == [SOCKET_VOLUME_NAME, token, config];
      DistinctAppend(VolumeNames(vs), [SOCKET_VOLUME_NAME, token, config]);
      DistinctThree(SOCKET_VOLUME_NAME, token, config);
    } else {
      assert VolumeNames(more) == [token, config];
      DistinctAppend(VolumeNames(vs), [token, config]);
      assert Distinct([token, config]) <==> [token, config][0] != [token, config][1];
    }
  }

  lemma DistinctThree(a: string, b: string, c: string)
    ensures Distinct([a, b, c]) <==> a != b && a != c && b != c
  {
    var s := [a, b, c];
    assert s[0] == a && s[1] == b && s[2] == c;
  }

  predicate AllTokenNamesApart(plans: seq<Plan>)
  {
    forall k :: 0 <= k < |plans| ==> TokenNameApart(plans[k])
  }

  /** Volume names stay distinct exactly when no applied plan's token name is one of those two. */
  lemma {:induction false} VolumesStayDistinct(existing: nat, s: Progress, plans: seq<Plan>)
    requires s.applied == []
    ensures var r := Run(existing, s, plans);
            Distinct(VolumeNames(r.pod.volumes))
            <==> Distinct(VolumeNames(s.pod.volumes)) && AllTokenNamesApart(r.applied)
  {
    hide Step, Refusal, NewVolumes, ResolveTargets, InjectAll, WritePayload, TokenNameApart, Distinct,
         ConfigVolumeName;
    if plans != [] {
      var here, plan := Run(existing, s, plans[..|plans| - 1]), plans[|plans| - 1];
      VolumesStayDistinct(existing, s, plans[..|plans| - 1]);
      StepPod(existing, here, plan);
      StepApplied(existing, here, plan);
      if Refusal(existing, here, plan).None? {
        AcceptedMeansFree(existing, here, plan);
        NewVolumesDistinct(here.pod.volumes, plan);
        AllTokenNamesSnoc(here.applied, plan);
      }
    }
  }

  lemma AllTokenNamesSnoc(plans: seq<Plan>, plan: Plan)
    ensures AllTokenNamesApart(plans + [plan]) <==> AllTokenNamesApart(plans) && TokenNameApart(plan)
  {
    hide TokenNameApart;
    var all := plans + [plan];
    assert all[|plans|] == plan;
    assert forall k :: 0 <= k < |plans| ==> all[k] == plans[k];
  }

  /* ---------- init containers ---------- */

  lemma ContainerNamesAppend(a: seq<Container>, b: seq<Container>)
    ensures ContainerNames(a + b) == ContainerNames(a) + ContainerNames(b)
  {
  }

  lemma {:induction false} QueuedNamesDistinct(pending: seq<Container>, inits: seq<Container>, plan: Plan)
    requires FindContainer(pending, InitContainerName(plan.shimName)).None?
    requires FindContainer(pending, RefreshContainerName(plan.shimName)).None?
    requires FindContainer(inits, InitContainerName(plan.shimName)).None?
    requires FindContainer(inits, RefreshContainerName(plan.shimName)).None?
    ensures Distinct(ContainerNames(pending + HelperContainers(plan) + inits))
            <==> Distinct(ContainerNames(pending + inits))
  {
    DerivedNamesApart(plan.shimName, plan.shimName);
    hide InitContainerName, RefreshContainerName, ConfigVolumeName;
    var a, b := ContainerNames(pending), ContainerNames(inits);
    var m := [InitContainerName(plan.shimName), RefreshContainerName(plan.shimName)];
    assert ContainerNames(HelperContainers(plan)) == m;
    assert Distinct(m);
    hide HelperContainers, Distinct;
    ContainerNamesAppend(pending, HelperContainers(plan));
    ContainerNamesAppend(pending + HelperContainers(plan), inits);
    ContainerNamesAppend(pending, inits);
    DistinctInsert(a, m, b);
  }

  /** Init container names stay distinct, with no condition on the plans at all. */
  lemma {:induction false} InitsStayDistinct(existing: nat, s: Progress, plans: seq<Plan>)
    ensures var r := Run(existing, s, plans);
            Distinct(ContainerNames(r.newInits + r.pod.initContainers))
            <==> Distinct(ContainerNames(s.newInits + s.pod.initContainers))
  {
    hide Step, Refusal, NewVolumes, ResolveTargets, InjectAll, WritePayload, Distinct, ConfigVolumeName,
         HelperContainer, InitContainerName, RefreshContainerName;
    if plans != [] {
      var here, plan := Run(existing, s, plans[..|plans| - 1]), plans[|plans| - 1];
      InitsStayDistinct(existing, s, plans[..|plans| - 1]);
      StepPod(existing, here, plan);
      StepQueue(existing, here, plan);
      if Refusal(existing, here, plan).None? {
        AcceptedMeansFree(existing, here, plan);
        QueuedNamesDistinct(here.newInits, here.pod.initContainers, plan);
      }
    }
  }

  /* ---------- mount paths ---------- */

  predicate MountsDistinct(cs: seq<Container>)
  {
    forall j :: 0 <= j < |cs| ==> Distinct(MountTargets(cs[j].mounts))
  }

  lemma MountTargetsAppend(a: seq<VolumeMount>, b: seq<VolumeMount>)
    ensures MountTargets(a + b) == MountTargets(a) + MountTargets(b)
  {
  }

  lemma {:induction false} MountedOnce(own: seq<VolumeMount>, once: seq<VolumeMount>, paths: seq<string>)
    requires MountTargets(once) == paths && Distinct(paths)
    requires forall p :: 0 <= p < |paths| ==> FindMount(own, paths[p]).None?
    ensures Distinct(MountTargets(own + once)) <==> Distinct(MountTargets(own))
  {
    MountTargetsAppend(own, once);
    forall x | x in paths ensures x !in MountTargets(own) {
      var p :| 0 <= p < |paths| && paths[p] == x;
      assert FindMount(own, paths[p]).None?;
    }
    DistinctAppend(MountTargets(own), paths);
  }

  /** Mounting a plan's paths h times over free ones leaves them distinct exactly when h <= 1. */
  lemma {:induction false} RepeatedMounts(own: seq<VolumeMount>, plan: Plan, h: nat)
    requires PathsDistinct(plan)
    requires h >= 1 ==> forall p :: 0 <= p < |MountPaths(plan)| ==> FindMount(own, MountPaths(plan)[p]).None?
    ensures Distinct(MountTargets(own + Repeat(PlanMounts(plan, |plan.files|), h)))
            <==> Distinct(MountTargets(own)) && h <= 1
  {
    hide PlanMounts, MountPaths, Distinct;
    var once := PlanMounts(plan, |plan.files|);
    if h == 0 {
      assert own + Repeat(once, 0) == own;
    } else if h == 1 {
      PlanMountTargets(plan);
      assert Repeat(once, 1) == once by { assert Repeat(once, 0) + once == once; }
      MountedOnce(own, once, MountPaths(plan));
    } else {
      TwiceRepeats(own, once, h);
    }
  }

  lemma {:induction false} TwiceRepeats(own: seq<VolumeMount>, once: seq<VolumeMount>, h: nat)
    requires h >= 2 && once != []
    ensures !Distinct(MountTargets(own + Repeat(once, h)))
  {
    var all := own + Repeat(once, h);
    RepeatStarts(once, h - 1);
    var second := |own| + |Repeat(once, h - 1)|;
    assert all[|own|] == once[0] && all[second] == once[0];
    assert MountTargets(all)[|own|] == MountTargets(all)[second];
  }

  lemma {:induction false} DistinctTargetsHitOnce(cs: seq<Container>, targets: seq<string>, j: nat)
    requires Distinct(targets)
    ensures Hits(cs, targets, j) <= 1
    ensures Hits(cs, targets, j) == 1 ==> j < |cs| && cs[j].name in targets
  {
    if targets != [] {
      var front, last := targets[..|targets| - 1], targets[|targets| - 1];
      DistinctTargetsHitOnce(cs, front, j);
      if FindContainer(cs, last) == Some(j) {
        assert last !in front;
        assert last == targets[|targets| - 1];
      }
    }
  }

  lemma {:induction false} RepeatedTargetHitsTwice(cs: seq<Container>, targets: seq<string>, a: nat, b: nat, j: nat)
    requires a < b < |targets| && targets[a] == targets[b] && FindContainer(cs, targets[a]) == Some(j)
    ensures Hits(cs, targets, j) >= 2
  {
    hide FindContainer;
    var n := |targets| - 1;
    if b < n {
      RepeatedTargetHitsTwice(cs, targets[..n], a, b, j);
    } else {
      HitByTarget(cs, targets[..n], a, j);
    }
  }

  /** One container after one accepted plan: distinct iff it was, and it was named at most once. */
  lemma {:induction false} ContainerMounts(cs: seq<Container>, plan: Plan, targets: seq<string>, j: nat)
    requires PathsDistinct(plan) && j < |cs|
    requires MountProblem(cs, targets, MountPaths(plan)).None?
    ensures Distinct(MountTargets(InjectAll(cs, plan, targets)[j].mounts))
            <==> Distinct(MountTargets(cs[j].mounts)) && Hits(cs, targets, j) <= 1
  {
    hide InjectAll, MountProblem, PlanMounts, Repeat, MountPaths, PathsDistinct, Distinct;
    MountsExact(cs, plan, targets, j);
    var h := Hits(cs, targets, j);
    if h >= 1 {
      var t := HitIsTarget(cs, targets, j);
      forall p | 0 <= p < |MountPaths(plan)| ensures FindMount(cs[j].mounts, MountPaths(plan)[p]).None? {
        FreePaths(cs, targets, MountPaths(plan), t, p);
      }
    }
    RepeatedMounts(cs[j].mounts, plan, h);
  }

  /** All containers after one accepted plan: the condition is duplicate-free targets. */
  lemma {:induction false} PlanMountsDistinct(cs: seq<Container>, plan: Plan, targets: seq<string>)
    requires PathsDistinct(plan)
    requires MountProblem(cs, targets, MountPaths(plan)).None?
    requires forall t :: 0 <= t < |targets| ==> FindContainer(cs, targets[t]).Some?
    ensures MountsDistinct(InjectAll(cs, plan, targets)) <==> MountsDistinct(cs) && Distinct(targets)
  {
    hide InjectAll, MountProblem, Hits, MountPaths, PathsDistinct;
    forall j | 0 <= j < |cs|
      ensures Distinct(MountTargets(InjectAll(cs, plan, targets)[j].mounts))
              <==> Distinct(MountTargets(cs[j].mounts)) && Hits(cs, targets, j) <= 1
    {
      ContainerMounts(cs, plan, targets, j);
    }
    if Distinct(targets) {
      forall j | 0 <= j < |cs| ensures Hits(cs, targets, j) <= 1 {
        DistinctTargetsHitOnce(cs, targets, j);
      }
    } else {
      var a, b :| 0 <= a < b < |targets| && targets[a] == targets[b];
      var j := FindContainer(cs, targets[a]).value;
      RepeatedTargetHitsTwice(cs, targets, a, b, j);
    }
  }

  predicate AllPathsDistinct(plans: seq<Plan>)
  {
    forall k :: 0 <= k < |plans| ==> PathsDistinct(plans[k])
  }

  predicate AllTargetsDistinct(pod: PodState, plans: seq<Plan>)
  {
    forall k :: 0 <= k < |plans| ==> Distinct(ResolveTargets(pod, plans[k]).targets)
  }

  lemma AllTargetsSnoc(pod: PodState, plans: seq<Plan>, plan: Plan)
    ensures AllTargetsDistinct(pod, plans + [plan])
            <==> AllTargetsDistinct(pod, plans) && Distinct(ResolveTargets(pod, plan).targets)
  {
    hide ResolveTargets, Distinct;
    var all := plans + [plan];
    assert all[|plans|] == plan;
    assert forall k :: 0 <= k < |plans| ==> all[k] == plans[k];
  }

  /**
    Mount paths stay distinct in every container exactly when no applied plan resolves to a list
    of targets with a repeated name.  The targets are those of the pod as it was before the call.
   */
  lemma {:induction false} MountsStayDistinct(existing: nat, pod: PodState, plans: seq<Plan>)
    requires AllPathsDistinct(Run(existing, Start(pod), plans).applied)
    ensures var r := Run(existing, Start(pod), plans);
            MountsDistinct(r.pod.containers)
            <==> MountsDistinct(pod.containers) && AllTargetsDistinct(pod, r.applied)
  {
    hide Step, Refusal, NewVolumes, ResolveTargets, InjectAll, WritePayload, Distinct, PathsDistinct, MountProblem,
         MountPaths, MountsDistinct, Extends;
    if plans == [] {
      assert AllTargetsDistinct(pod, []);
    } else {
      var front, plan := plans[..|plans| - 1], plans[|plans| - 1];
      var here, r := Run(existing, Start(pod), front), Run(existing, Start(pod), plans);
      StepPod(existing, here, plan);
      StepApplied(existing, here, plan);
      assert here.applied <= r.applied;
      assert forall k :: 0 <= k < |here.applied| ==> here.applied[k] == r.applied[k];
      MountsStayDistinct(existing, pod, front);
      if Refusal(existing, here, plan).None? {
        assert r.applied[|here.applied|] == plan;
        AcceptedMeansFree(existing, here, plan);
        AllTargetsSnoc(pod, here.applied, plan);
        var targets := ResolveTargets(here.pod, plan).targets;
        forall t | 0 <= t < |targets| ensures FindContainer(here.pod.containers, targets[t]).Some? {
          TargetsExist(here.pod, plan, t);
        }
        TargetsUnchanged(existing, pod, front, plan);
        PlanMountsDistinct(here.pod.containers, plan, targets);
      }
    }
  }

  lemma {:induction false} TargetsUnchanged(existing: nat, pod: PodState, plans: seq<Plan>, plan: Plan)
    ensures ResolveTargets(Run(existing, Start(pod), plans).pod, plan) == ResolveTargets(pod, plan)
  {
    hide Step, ResolveTargets;
    RunLater(existing, Start(pod), plans, 0);
    assert plans[..0] == [];
    TargetsKept(pod, Run(existing, Start(pod), plans).pod, plan);
  }

  /* ---------- environment variables ---------- */

  predicate EnvDistinct(cs: seq<Container>)
  {
    forall j :: 0 <= j < |cs| ==> Distinct(EnvNames(cs[j].env))
  }

  lemma {:induction false} AddEnvDistinct(env: seq<EnvVar>, more: seq<EnvVar>)
    ensures Distinct(EnvNames(AddEnv(env, more))) <==> Distinct(EnvNames(env))
  {
    if more != [] {
      var before := AddEnv(env, more[..|more| - 1]);
      var e := more[|more| - 1];
      AddEnvDistinct(env, more[..|more| - 1]);
      if !HasEnv(before, e.name) {
        assert EnvNames(before + [e]) == EnvNames(before) + [e.name];
        DistinctAppend(EnvNames(before), [e.name]);
      }
    }
  }

  lemma {:induction false} InjectEnvDistinct(cs: seq<Container>, plan: Plan, targets: seq<string>)
    ensures EnvDistinct(InjectAll(cs, plan, targets)) <==> EnvDistinct(cs)
  {
    hide PlanMounts, AddEnv, Distinct;
    if targets != [] {
      var before := InjectAll(cs, plan, targets[..|targets| - 1]);
      InjectEnvDistinct(cs, plan, targets[..|targets| - 1]);
      var c := FindContainer(before, targets[|targets| - 1]);
      if c.Some? {
        AddEnvDistinct(before[c.value].env, plan.env);
        var after := before[c.value := InjectOne(before[c.value], plan)];
        forall j | 0 <= j < |cs|
          ensures Distinct(EnvNames(after[j].env)) <==> Distinct(EnvNames(before[j].env))
        {
        }
      }
    }
  }

  /** Variable names stay distinct even with repeated targets and repeated names in a plan. */
  lemma {:induction false} EnvStaysDistinct(existing: nat, s: Progress, plans: seq<Plan>)
    ensures EnvDistinct(Run(existing, s, plans).pod.containers) <==> EnvDistinct(s.pod.containers)
  {
    hide Step, Refusal, NewVolumes, ResolveTargets, InjectAll, WritePayload, EnvDistinct;
    if plans != [] {
      var here, plan := Run(existing, s, plans[..|plans| - 1]), plans[|plans| - 1];
      EnvStaysDistinct(existing, s, plans[..|plans| - 1]);
      StepPod(existing, here, plan);
      InjectEnvDistinct(here.pod.containers, plan, ResolveTargets(here.pod, plan).targets);
    }
  }

  /* ---------- the helper containers ---------- */

  /** The three directories a helper mounts, at paths the code never compares with each other. */
  predicate HelperPathsApart(plan: Plan)
  {
    && plan.socketMountPath != plan.token.mountPath
    && plan.socketMountPath != CONFIG_MOUNT_PATH
    && plan.token.mountPath != CONFIG_MOUNT_PATH
  }

  predicate AllHelperPathsApart(plans: seq<Plan>)
  {
    forall k :: 0 <= k < |plans| ==> HelperPathsApart(plans[k])
  }

  lemma HelperMountTargets(plan: Plan, sidecar: bool)
    ensures Distinct(MountTargets(HelperContainer(plan, sidecar).mounts)) <==> HelperPathsApart(plan)
  {
    var paths := [plan.socketMountPath, plan.token.mountPath, CONFIG_MOUNT_PATH];
    assert MountTargets(HelperContainer(plan, sidecar).mounts) == paths;
    DistinctThree(plan.socketMountPath, plan.token.mountPath, CONFIG_MOUNT_PATH);
  }

  lemma MountsDistinctAppend(a: seq<Container>, b: seq<Container>)
    ensures MountsDistinct(a + b) <==> MountsDistinct(a) && MountsDistinct(b)
  {
    hide Distinct;
    var all := a + b;
    assert forall j :: 0 <= j < |a| ==> all[j] == a[j];
    assert forall j :: 0 <= j < |b| ==> b[j] == all[|a| + j];
  }

  lemma {:induction false} HelperMountsDistinct(plans: seq<Plan>)
    ensures MountsDistinct(Helpers(plans)) <==> AllHelperPathsApart(plans)
  {
    if plans == [] {
      NoHelpers();
    } else {
      hide MountsDistinct, AllHelperPathsApart, HelperPathsApart, HelperContainers, Helpers;
      var n := |plans| - 1;
      var front, last := plans[..n], plans[n];
      assert plans == front + [last];
      HelperMountsDistinct(front);
      HelpersSnoc(front, last);
      MountsDistinctAppend(Helpers(front), HelperContainers(last));
      PairMountsDistinct(last);
      ApartSnoc(front, last);
    }
  }

  lemma ApartSnoc(plans: seq<Plan>, plan: Plan)
    ensures AllHelperPathsApart(plans + [plan]) <==> AllHelperPathsApart(plans) && HelperPathsApart(plan)
  {
    hide HelperPathsApart;
    var all := plans + [plan];
    assert all[|plans|] == plan && forall k :: 0 <= k < |plans| ==> all[k] == plans[k];
  }

  lemma PairMountsDistinct(plan: Plan)
    ensures MountsDistinct(HelperContainers(plan)) <==> HelperPathsApart(plan)
  {
    HelperMountTargets(plan, false);
    HelperMountTargets(plan, true);
    hide Distinct, HelperPathsApart, HelperContainer;
    assert HelperContainers(plan)[0] == HelperContainer(plan, false);
    assert HelperContainers(plan)[1] == HelperContainer(plan, true);
  }

  /** No app container is named like the init or the refresh container of an applied shim. */
  predicate HelperNamesFree(cs: seq<Container>, plans: seq<Plan>)
  {
    forall k :: 0 <= k < |plans| ==>
      && InitContainerName(plans[k].shimName) !in ContainerNames(cs)
      && RefreshContainerName(plans[k].shimName) !in ContainerNames(cs)
  }

  lemma DistinctAdjoin(a: seq<string>, b: seq<string>, c: seq<string>)
    requires Distinct(a + b) && Distinct(b + c)
    ensures Distinct(a + b + c) <==> forall i :: 0 <= i < |a| ==> a[i] !in c
  {
    var all := a + b + c;
    assert forall i :: 0 <= i < |a| + |b| ==> all[i] == (a + b)[i];
    assert forall i :: |a| <= i < |all| ==> all[i] == (b + c)[i - |a|];
    if Distinct(all) {
      forall i | 0 <= i < |a| ensures a[i] !in c {
        forall n | 0 <= n < |c| ensures c[n] != a[i] {
          assert all[i] == a[i] && all[|a| + |b| + n] == c[n];
        }
      }
    }
    if forall i :: 0 <= i < |a| ==> a[i] !in c {
      forall i, j | 0 <= i < j < |all| ensures all[i] != all[j] {
        if i < |a| && |a| + |b| <= j {
          assert all[i] == a[i] && all[j] == c[j - |a| - |b|] && a[i] !in c;
        } else if j < |a| + |b| {
          assert (a + b)[i] != (a + b)[j];
        } else {
          assert (b + c)[i - |a|] != (b + c)[j - |a|];
        }
      }
    }
  }

  lemma {:induction false} HelperNameAt(plans: seq<Plan>, k: nat)
    requires k < |plans|
    ensures var names := ContainerNames(Helpers(plans));
            && names[2 * k] == InitContainerName(plans[k].shimName)
            && names[2 * k + 1] == RefreshContainerName(plans[k].shimName)
  {
    hide InitContainerName, RefreshContainerName;
    assert Helpers(plans)[2 * k] == HelperContainer(plans[k], false);
    assert Helpers(plans)[2 * k + 1] == HelperContainer(plans[k], true);
  }

  lemma {:induction false} HelperNamesFreeExact(cs: seq<Container>, plans: seq<Plan>)
    ensures var names := ContainerNames(Helpers(plans));
            (forall i :: 0 <= i < |names| ==> names[i] !in ContainerNames(cs)) <==> HelperNamesFree(cs, plans)
  {
    hide InitContainerName, RefreshContainerName, HelperContainer;
    var names, taken := ContainerNames(Helpers(plans)), ContainerNames(cs);
    forall k | 0 <= k < |plans|
      ensures names[2 * k] == InitContainerName(plans[k].shimName)
      ensures names[2 * k + 1] == RefreshContainerName(plans[k].shimName)
    {
      HelperNameAt(plans, k);
    }
    hide Helpers;
    if HelperNamesFree(cs, plans) {
      forall i | 0 <= i < |names| ensures names[i] !in taken {
        HelperNameAt(plans, i / 2);
        assert i == 2 * (i / 2) || i == 2 * (i / 2) + 1;
      }
    }
  }

  /* ---------- names and modes ---------- */

  predicate ModeOk(item: DownwardItem) { item.mode.Some? ==> 0 <= item.mode.value <= 511 }

  /** A volume the API server admits: its name is a label, its file modes lie in 0..0777. */
  predicate VolumeOk(v: Volume)
  {
    && DnsLabel(v.name)
    && (v.source.DownwardApi? ==> forall i :: 0 <= i < |v.source.items| ==> ModeOk(v.source.items[i]))
  }

  predicate VolumesOk(vs: seq<Volume>)
  {
    forall i :: 0 <= i < |vs| ==> VolumeOk(vs[i])
  }

  predicate NamesOk(cs: seq<Container>)
  {
    forall i :: 0 <= i < |cs| ==> DnsLabel(cs[i].name)
  }

  /** Zeros before the last three octal digits, or a mode that does not parse and counts as zero. */
  predicate ModeFits(mode: string)
  {
    ParseFileMode(mode).Some? ==> forall i :: 0 <= i < |mode| - 3 ==> mode[i] == '0'
  }

  /** The derived and given names are labels, and the file modes are modes. */
  predicate Fitting(plan: Plan)
  {
    && NameFits(plan.shimName)
    && DnsLabel(plan.token.volumeName)
    && forall i :: 0 <= i < |plan.files| ==> ModeFits(plan.files[i].mode)
  }

  predicate AllFitting(plans: seq<Plan>)
  {
    forall k :: 0 <= k < |plans| ==> Fitting(plans[k])
  }

  lemma ModeFitsExact(plan: Plan, i: nat)
    requires i < |plan.files|
    ensures ModeOk(FileItem(plan, i)) <==> ModeFits(plan.files[i].mode)
  {
    hide FilesSubPath, AnnotationFieldRef, FileAnnotation, OctalValue;
    ParsedInRange(plan.files[i].mode);
  }

  lemma ConfigVolumeOk(plan: Plan)
    ensures VolumeOk(ConfigVolume(plan))
            <==> DnsLabel(ConfigVolumeName(plan.shimName))
                 && forall i :: 0 <= i < |plan.files| ==> ModeFits(plan.files[i].mode)
  {
    hide DnsLabel, ConfigVolumeName, ModeFits, FileItem, ModeOk;
    var items := ConfigItems(plan, |plan.files|);
    assert ModeOk(items[0]) by { ConfItemOk(plan); }
    forall i | 0 <= i < |plan.files| ensures ModeOk(items[i + 1]) <==> ModeFits(plan.files[i].mode) {
      ModeFitsExact(plan, i);
    }
    if forall i :: 0 <= i < |plan.files| ==> ModeFits(plan.files[i].mode) {
      forall n | 0 <= n < |items| ensures ModeOk(items[n]) {
        if n > 0 {
          assert ModeOk(items[n - 1 + 1]) <==> ModeFits(plan.files[n - 1].mode);
        }
      }
    }
  }

  lemma ConfItemOk(plan: Plan)
    ensures ModeOk(HelperConfItem(plan))
  {
  }

  lemma VolumesOkAppend(a: seq<Volume>, b: seq<Volume>)
    ensures VolumesOk(a + b) <==> VolumesOk(a) && VolumesOk(b)
  {
    hide VolumeOk;
    var all := a + b;
    assert forall i :: 0 <= i < |a| ==> all[i] == a[i];
    assert forall i :: 0 <= i < |b| ==> b[i] == all[|a| + i];
  }

  lemma NamesOkAppend(a: seq<Container>, b: seq<Container>)
    ensures NamesOk(a + b) <==> NamesOk(a) && NamesOk(b)
  {
    hide DnsLabel;
    var all := a + b;
    assert forall i :: 0 <= i < |a| ==> all[i] == a[i];
    assert forall i :: 0 <= i < |b| ==> b[i] == all[|a| + i];
  }

  /** What a plan's own volumes and helpers need, taken together, is that the plan fits. */
  lemma FittingExact(plan: Plan)
    ensures VolumeOk(TokenVolume(plan)) && VolumeOk(ConfigVolume(plan)) && NamesOk(HelperContainers(plan))
            <==> Fitting(plan)
  {
    DerivedNamesAreLabels(plan.shimName);
    ConfigVolumeOk(plan);
    hide DnsLabel, ConfigVolumeName, InitContainerName, RefreshContainerName, NameFits, ModeFits, ConfigVolume;
    var hs := HelperContainers(plan);
    assert hs[0].name == InitContainerName(plan.shimName) && hs[1].name == RefreshContainerName(plan.shimName);
  }

  lemma AllFittingSnoc(plans: seq<Plan>, plan: Plan)
    ensures AllFitting(plans + [plan]) <==> AllFitting(plans) && Fitting(plan)
  {
    hide Fitting;
    var all := plans + [plan];
    assert all[|plans|] == plan && forall k :: 0 <= k < |plans| ==> all[k] == plans[k];
  }

  lemma PairOk(v: Volume, w: Volume)
    ensures VolumesOk([v, w]) <==> VolumeOk(v) && VolumeOk(w)
  {
    hide VolumeOk;
    assert [v, w][0] == v && [v, w][1] == w;
  }

  lemma {:induction false} HelpersSnoc(plans: seq<Plan>, plan: Plan)
    ensures Helpers(plans + [plan]) == Helpers(plans) + HelperContainers(plan)
  {
    hide HelperContainers;
    assert (plans + [plan])[..|plans|] == plans;
  }

  lemma {:induction false} AddedOk(plans: seq<Plan>)
    ensures VolumesOk(PairsOf(plans)) && NamesOk(Helpers(plans)) <==> AllFitting(plans)
  {
    if plans == [] {
      NoPairs();
      NoHelpers();
    } else {
      hide VolumesOk, NamesOk, VolumeOk, AllFitting, Fitting, HelperContainers, TokenVolume, ConfigVolume, Helpers,
           PairsOf;
      var n := |plans| - 1;
      var front, last := plans[..n], plans[n];
      assert plans == front + [last];
      AddedOk(front);
      FittingExact(last);
      AllFittingSnoc(front, last);
      PairsSnoc(front, last);
      HelpersSnoc(front, last);
      PairOk(TokenVolume(last), ConfigVolume(last));
      VolumesOkAppend(PairsOf(front), [TokenVolume(last), ConfigVolume(last)]);
      NamesOkAppend(Helpers(front), HelperContainers(last));
    }
  }

  lemma {:induction false} VolumesStayOk(vs: seq<Volume>, applied: seq<Plan>)
    requires VolumesOk(vs)
    ensures VolumesOk(vs + VolumesAdded(vs, applied)) <==> VolumesOk(PairsOf(applied))
  {
    hide VolumeOk, PairsOf;
    VolumesOkAppend(vs, VolumesAdded(vs, applied));
    if applied == [] {
      NoPairs();
    } else {
      SocketOk(applied[0]);
      VolumesOkAppend([SocketVolume(applied[0])], PairsOf(applied));
      assert [] + PairsOf(applied) == PairsOf(applied);
    }
  }

  lemma NoPairs()
    ensures PairsOf([]) == []
  {
  }

  lemma SocketOk(plan: Plan)
    ensures VolumesOk([SocketVolume(plan)])
  {
    SocketNameIsLabel();
    hide DnsLabel;
  }

  lemma NamesOkByNames(cs: seq<Container>, ds: seq<Container>)
    requires ContainerNames(cs) == ContainerNames(ds)
    ensures NamesOk(cs) <==> NamesOk(ds)
  {
    hide DnsLabel;
    assert |cs| == |ContainerNames(cs)| == |ds|;
    assert forall i :: 0 <= i < |cs| ==> cs[i].name == ContainerNames(cs)[i] == ds[i].name;
  }

  /* ---------- the whole call ---------- */

  /** A pod the API server admits, as far as names, mount paths, file modes and annotation size go. */
  ghost predicate Admissible(pod: PodState)
  {
    && Distinct(VolumeNames(pod.volumes)) && VolumesOk(pod.volumes)
    && Distinct(ContainerNames(pod.initContainers + pod.containers))
    && NamesOk(pod.initContainers) && NamesOk(pod.containers)
    && MountsDistinct(pod.initContainers) && MountsDistinct(pod.containers)
    && MapBytes(pod.annotations) <= MAX_OBJECT_ANNOTATION_BYTES
  }

  /** What the code leaves to its users, for the plans that are applied. */
  ghost predicate Considerate(pod: PodState, applied: seq<Plan>)
  {
    && AllTokenNamesApart(applied)
    && AllTargetsDistinct(pod, applied)
    && AllHelperPathsApart(applied)
    && HelperNamesFree(pod.containers, applied)
    && AllFitting(applied)
    && (applied != [] ==> WithinObjectLimit(pod, applied))
  }

  lemma FinishedPod(pod: PodState, plans: seq<Plan>)
    requires !Injected(pod)
    ensures var out, r := Apply(pod, plans), Loop(pod, plans);
            && out.applied == r.applied
            && out.pod.volumes == r.pod.volumes && out.pod.containers == r.pod.containers
            && out.pod.initContainers == Helpers(r.applied) + pod.initContainers
            && r.newInits == Helpers(r.applied) && r.pod.initContainers == pod.initContainers
  {
    hide Run, MapBytes, Extends;
    var s, existing := Start(pod), MapBytes(pod.annotations);
    QueueIsHelpers(existing, s, plans);
    InitsUntouched(existing, s, plans);
    if Loop(pod, plans).applied == [] {
      assert Helpers([]) + pod.initContainers == pod.initContainers;
    }
  }

  lemma {:induction false} InitsUntouched(existing: nat, s: Progress, plans: seq<Plan>)
    ensures Run(existing, s, plans).pod.initContainers == s.pod.initContainers
  {
    RunLater(existing, s, plans, 0);
    assert plans[..0] == [];
  }

  /** Names across init and app containers, once the applied plans' helpers are put in front. */
  lemma NamesStayDistinct(pod: PodState, plans: seq<Plan>)
    requires Distinct(ContainerNames(pod.initContainers + pod.containers))
    ensures var r := Loop(pod, plans);
            Distinct(ContainerNames(Helpers(r.applied) + pod.initContainers + r.pod.containers))
            <==> HelperNamesFree(pod.containers, r.applied)
  {
    hide Run, MapBytes, Distinct, Helpers, HelperNamesFree;
    var s, existing, r := Start(pod), MapBytes(pod.annotations), Loop(pod, plans);
    var hs, inits, cs := Helpers(r.applied), pod.initContainers, pod.containers;
    RunKeepsNames(existing, s, plans);
    InitsStayDistinct(existing, s, plans);
    InitsUntouched(existing, s, plans);
    assert s.newInits == Helpers(s.applied) by { NoHelpers(); }
    QueueIsHelpers(existing, s, plans);
    assert [] + inits == inits;
    ContainerNamesAppend(inits, cs);
    FrontDistinct(ContainerNames(inits), ContainerNames(cs));
    ContainerNamesAppend(hs, inits);
    ContainerNamesAppend(hs + inits, r.pod.containers);
    DistinctAdjoin(ContainerNames(hs), ContainerNames(inits), ContainerNames(cs));
    HelperNamesFreeExact(cs, r.applied);
  }

  lemma NoHelpers()
    ensures Helpers([]) == []
  {
  }

  lemma FrontDistinct(a: seq<string>, b: seq<string>)
    requires Distinct(a + b)
    ensures Distinct(a)
  {
    assert forall i :: 0 <= i < |a| ==> (a + b)[i] == a[i];
  }

  lemma {:induction false} RunKeepsNames(existing: nat, s: Progress, plans: seq<Plan>)
    ensures ContainerNames(Run(existing, s, plans).pod.containers) == ContainerNames(s.pod.containers)
  {
    RunLater(existing, s, plans, 0);
    assert plans[..0] == [];
    NamesKept(s.pod.containers, Run(existing, s, plans).pod.containers);
  }

  /** Names and modes of the finished pod, given those of the pod before. */
  lemma StaysOk(pod: PodState, plans: seq<Plan>)
    requires !Injected(pod) && VolumesOk(pod.volumes) && NamesOk(pod.initContainers) && NamesOk(pod.containers)
    ensures var out := Apply(pod, plans);
            VolumesOk(out.pod.volumes) && NamesOk(out.pod.initContainers) && NamesOk(out.pod.containers)
            <==> AllFitting(out.applied)
  {
    hide Run, MapBytes, VolumesOk, NamesOk, AllFitting, Apply, Helpers, PairsOf, VolumesAdded;
    FinishedPod(pod, plans);
    var existing, s, applied := MapBytes(pod.annotations), Start(pod), Apply(pod, plans).applied;
    RunVolumesExact(existing, s, plans);
    RunKeepsNames(existing, s, plans);
    NamesOkByNames(pod.containers, Apply(pod, plans).pod.containers);
    VolumesStayOk(pod.volumes, applied);
    NamesOkAppend(Helpers(applied), pod.initContainers);
    AddedOk(applied);
  }

  lemma StaysSmall(pod: PodState, plans: seq<Plan>)
    requires !Injected(pod) && MapBytes(pod.annotations) <= MAX_OBJECT_ANNOTATION_BYTES
    ensures var out := Apply(pod, plans);
            MapBytes(out.pod.annotations) <= MAX_OBJECT_ANNOTATION_BYTES
            <==> (out.applied != [] ==> WithinObjectLimit(pod, out.applied))
  {
    hide Run, MapBytes, WithinObjectLimit;
    if Apply(pod, plans).applied != [] {
      AnnotationLimitExact(pod, plans);
    } else {
      NothingAppliedNothingChanged(MapBytes(pod.annotations), Start(pod), plans);
    }
  }

  /**
    Injection keeps a pod admissible exactly when, for every applied plan: the token volume takes
    neither the socket's name nor the own config volume's, no target is named twice, the helpers'
    three mount paths differ, no app container has the name of one of its helpers, derived names
    and the token volume's are labels, file modes are modes; and content, keys and bookkeeping
    together fit into the API server's limit.
   */
  lemma InjectionKeepsAdmissible(pod: PodState, plans: seq<Plan>)
    requires Admissible(pod) && !Injected(pod)
    requires AllPathsDistinct(Apply(pod, plans).applied)
    ensures Admissible(Apply(pod, plans).pod) <==> Considerate(pod, Apply(pod, plans).applied)
  {
    hide Run, MapBytes, Distinct, MountsDistinct, AllTokenNamesApart, AllTargetsDistinct, AllPathsDistinct,
         AllHelperPathsApart, HelperNamesFree, Apply, Helpers, VolumesOk, NamesOk, AllFitting, WithinObjectLimit;
    var existing, s := MapBytes(pod.annotations), Start(pod);
    FinishedPod(pod, plans);
    var applied := Apply(pod, plans).applied;
    VolumesStayDistinct(existing, s, plans);
    NamesStayDistinct(pod, plans);
    MountsStayDistinct(existing, pod, plans);
    HelperMountsDistinct(applied);
    MountsDistinctAppend(Helpers(applied), pod.initContainers);
    StaysOk(pod, plans);
    StaysSmall(pod, plans);
  }
}
