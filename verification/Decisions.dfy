/**
  The engine's decisions, read off the pod and the plan alone: which containers a plan goes into,
  when a plan is accepted, what a refusal says about the pod, and which environment variables are
  reported as left alone.  Everything is stated with names, paths and list positions.
 */
module Decisions {
  import opened Text
  import opened Keys
  import Bytes
  import opened Pods
  import opened Injection
  import opened Mounts
  import opened Frame

  /* ---------- targets ---------- */

  predicate HasContainer(cs: seq<Container>, name: string)
  {
    exists i :: 0 <= i < |cs| && cs[i].name == name
  }

  /** What the pod's own annotation lists, and otherwise what the plan lists. */
  predicate Asked(pod: PodState, plan: Plan, names: seq<string>)
  {
    var key := "oidcshim.kemo.dev/containers";
    if key in pod.annotations && CommaNames(pod.annotations[key]) != [] then names == CommaNames(pod.annotations[key])
    else names == plan.containers
  }

  lemma ContainersKey()
    ensures CONTAINERS_ANNOTATION == "oidcshim.kemo.dev/containers"
  {
  }

  lemma {:induction false} ExistingCounts(cs: seq<Container>, names: seq<string>, name: string)
    ensures multiset(Existing(cs, names))[name] == if HasContainer(cs, name) then multiset(names)[name] else 0
  {
    if names != [] {
      var n := |names| - 1;
      ExistingCounts(cs, names[..n], name);
      assert names == names[..n] + [names[n]];
      assert HasContainer(cs, names[n]) <==> FindContainer(cs, names[n]).Some?;
    }
  }

  /** The positions in a list of the entries another list keeps, in order. */
  predicate KeptAt<T(==)>(all: seq<T>, kept: seq<T>, at: seq<nat>)
  {
    && |at| == |kept|
    && (forall i :: 0 <= i < |at| ==> at[i] < |all| && all[at[i]] == kept[i])
    && (forall i, j :: 0 <= i < j < |at| ==> at[i] < at[j])
  }

  lemma {:induction false} ExistingInOrder(cs: seq<Container>, names: seq<string>) returns (at: seq<nat>)
    ensures KeptAt(names, Existing(cs, names), at)
  {
    at := [];
    if names != [] {
      var n := |names| - 1;
      at := ExistingInOrder(cs, names[..n]);
      KeptLonger(names[..n], Existing(cs, names[..n]), at, names[n]);
      assert names == names[..n] + [names[n]];
      if FindContainer(cs, names[n]).Some? {
        at := at + [n];
      }
    }
  }

  lemma KeptLonger<T>(all: seq<T>, kept: seq<T>, at: seq<nat>, x: T)
    requires KeptAt(all, kept, at)
    ensures KeptAt(all + [x], kept, at) && KeptAt(all + [x], kept + [x], at + [|all|])
  {
    var more := all + [x];
    forall i | 0 <= i < |at| ensures at[i] < |all| && more[at[i]] == kept[i] {
      assert all[at[i]] == kept[i];
    }
  }

  lemma {:induction false} NotFoundExact(cs: seq<Container>, shim: string, names: seq<string>, w: Warning)
    ensures w in NotFound(cs, shim, names)
            <==> w.ContainerNotFound? && w.shim == shim && w.container in names && !HasContainer(cs, w.container)
  {
    if names != [] {
      var n := |names| - 1;
      NotFoundExact(cs, shim, names[..n], w);
      assert names == names[..n] + [names[n]];
      assert HasContainer(cs, names[n]) <==> FindContainer(cs, names[n]).Some?;
    }
  }

  /**
    Nothing asked for means every app container, in order.  Otherwise the targets are the asked
    names that are containers, in the order and as often as they were asked for, and exactly the
    others are reported.
   */
  lemma TargetsExact(pod: PodState, plan: Plan, name: string, w: Warning) returns (at: seq<nat>)
    ensures var t := ResolveTargets(pod, plan);
            && Asked(pod, plan, t.requested)
            && (t.requested == [] ==> t.targets == ContainerNames(pod.containers) && t.warnings == [])
            && (t.requested != [] ==>
                  && KeptAt(t.requested, t.targets, at)
                  && multiset(t.targets)[name]
                     == (if HasContainer(pod.containers, name) then multiset(t.requested)[name] else 0)
                  && (w in t.warnings <==> && w.ContainerNotFound? && w.shim == plan.shimName
                                           && w.container in t.requested && !HasContainer(pod.containers, w.container)))
  {
    ContainersKey();
    hide CommaNames, HasContainer;
    var requested := ResolveTargets(pod, plan).requested;
    ExistingCounts(pod.containers, requested, name);
    NotFoundExact(pod.containers, plan.shimName, requested, w);
    at := ExistingInOrder(pod.containers, requested);
  }

  /** Of containers with one name only the first is ever meant. */
  predicate FirstNamed(cs: seq<Container>, j: nat)
  {
    j < |cs| && forall i :: 0 <= i < j ==> cs[i].name != cs[j].name
  }

  lemma {:induction false} FirstNamedFound(cs: seq<Container>, j: nat, name: string)
    ensures FindContainer(cs, name) == Some(j) <==> FirstNamed(cs, j) && cs[j].name == name
  {
  }

  /** A plan reaches a container exactly when it is the first of its name and is asked for, or nothing is. */
  lemma ReachesExact(pod: PodState, plan: Plan, j: nat, names: seq<string>)
    requires Asked(pod, plan, names)
    ensures Reaches(pod, plan, j)
            <==> FirstNamed(pod.containers, j) && (names == [] || pod.containers[j].name in names)
  {
    var cs, t := pod.containers, ResolveTargets(pod, plan);
    var dummy := TargetsExact(pod, plan, if j < |cs| then cs[j].name else "", AlreadyInjected);
    assert t.requested == names;
    hide ResolveTargets, Asked, Hits;
    if Reaches(pod, plan, j) {
      var i := HitIsTarget(cs, t.targets, j);
      FirstNamedFound(cs, j, t.targets[i]);
      assert t.targets[i] in t.targets;
      assert multiset(t.targets)[cs[j].name] > 0;
    }
    if FirstNamed(cs, j) && (names == [] || cs[j].name in names) {
      assert HasContainer(cs, cs[j].name);
      assert cs[j].name in t.targets by {
        if names == [] {
          assert t.targets[j] == cs[j].name;
        } else {
          assert multiset(t.targets)[cs[j].name] > 0;
        }
      }
      var i :| 0 <= i < |t.targets| && t.targets[i] == cs[j].name;
      FirstNamedFound(cs, j, t.targets[i]);
      HitByTarget(cs, t.targets, i, j);
    }
  }

  /* ---------- acceptance ---------- */

  predicate WithinBytes(existing: nat, s: Progress, plan: Plan)
  {
    existing + s.addedBytes + |plan.helperConf| + ContentBytes(plan.files) <= 196608
  }

  /** Some asked-for container exists, or none was asked for. */
  predicate SomeTarget(pod: PodState, names: seq<string>)
  {
    names == [] || exists i :: 0 <= i < |names| && HasContainer(pod.containers, names[i])
  }

  predicate FirstVolume(vs: seq<Volume>, i: nat, name: string)
  {
    i < |vs| && vs[i].name == name && forall j :: 0 <= j < i ==> vs[j].name != name
  }

  predicate VolumeNameFree(vs: seq<Volume>, name: string)
  {
    forall i :: 0 <= i < |vs| ==> vs[i].name != name
  }

  /** There is no socket volume yet, or it is of the plan's own driver. */
  predicate SocketShared(vs: seq<Volume>, driver: string)
  {
    forall i :: 0 <= i < |vs| && FirstVolume(vs, i, "spiffe-workload-api") ==>
                  vs[i].source.Csi? && vs[i].source.driver == driver
  }

  predicate VolumesFree(pod: PodState, plan: Plan)
  {
    && VolumeNameFree(pod.volumes, plan.token.volumeName)
    && VolumeNameFree(pod.volumes, "oidcshim-config-" + plan.shimName)
  }

  predicate InitNameFree(s: Progress, name: string)
  {
    !HasContainer(s.pod.initContainers, name) && !HasContainer(s.newInits, name)
  }

  predicate InitsFree(s: Progress, plan: Plan)
  {
    && InitNameFree(s, "oidcshim-init-" + plan.shimName)
    && InitNameFree(s, "oidcshim-refresh-" + plan.shimName)
  }

  predicate PathFree(c: Container, path: string)
  {
    forall i :: 0 <= i < |c.mounts| ==> c.mounts[i].mountPath != path
  }

  predicate PlanPathsFree(c: Container, plan: Plan)
  {
    PathFree(c, plan.token.mountPath) && forall i :: 0 <= i < |plan.files| ==> PathFree(c, plan.files[i].path)
  }

  /** In every container the plan reaches, its paths are not mounted yet. */
  predicate PathsFree(pod: PodState, plan: Plan)
  {
    forall j :: 0 <= j < |pod.containers| && Reaches(pod, plan, j) ==> PlanPathsFree(pod.containers[j], plan)
  }

  lemma {:induction false} FoundVolumeIsFirst(vs: seq<Volume>, name: string) returns (i: nat)
    requires FindVolume(vs, name).Some?
    ensures FirstVolume(vs, i, name) && FindVolume(vs, name) == Some(vs[i].source)
  {
    if vs[0].name == name {
      i := 0;
    } else {
      var n := FoundVolumeIsFirst(vs[1..], name);
      i := n + 1;
      forall j | 0 <= j < i ensures vs[j].name != name {
        assert j > 0 ==> vs[j] == vs[1..][j - 1];
      }
    }
  }

  lemma {:induction false} SocketExact(pod: PodState, plan: Plan)
    ensures SocketProblem(pod, plan).None? <==> SocketShared(pod.volumes, plan.csiDriver)
  {
    hide FindVolume;
    var vs, name := pod.volumes, SOCKET_VOLUME_NAME;
    if FindVolume(vs, name).Some? {
      var i := FoundVolumeIsFirst(vs, name);
      assert forall j :: 0 <= j < |vs| && FirstVolume(vs, j, name) ==> j == i;
    }
  }

  lemma {:induction false} PathExact(c: Container, plan: Plan)
    ensures PathProblem(c, MountPaths(plan)).None? <==> PlanPathsFree(c, plan)
  {
    var paths := MountPaths(plan);
    PathProblemIff(c, paths);
    hide PathProblem;
    forall i | 0 <= i < |paths| ensures FindMount(c.mounts, paths[i]).None? <==> PathFree(c, paths[i]) {
    }
    hide FindMount, PathFree;
    assert paths[0] == plan.token.mountPath;
    if PathProblem(c, paths).None? {
      forall i | 0 <= i < |plan.files| ensures PathFree(c, plan.files[i].path) {
        assert paths[i + 1] == plan.files[i].path;
      }
    }
    if PlanPathsFree(c, plan) {
      forall i | 0 <= i < |paths| ensures PathFree(c, paths[i]) {
        assert i > 0 ==> paths[i] == plan.files[i - 1].path;
      }
    }
  }

  lemma {:induction false} PathsExact(pod: PodState, plan: Plan)
    ensures MountProblem(pod.containers, ResolveTargets(pod, plan).targets, MountPaths(plan)).None?
            <==> PathsFree(pod, plan)
  {
    var cs, targets, paths := pod.containers, ResolveTargets(pod, plan).targets, MountPaths(plan);
    MountProblemIff(cs, targets, paths);
    hide ResolveTargets, MountProblem, PathProblem, PlanPathsFree, MountPaths, Hits;
    if PathsFree(pod, plan) {
      forall t | 0 <= t < |targets| ensures !Occupied(cs, targets[t], paths) {
        var c := FindContainer(cs, targets[t]);
        if c.Some? {
          HitByTarget(cs, targets, t, c.value);
          PathExact(cs[c.value], plan);
        }
      }
    }
    if forall t :: 0 <= t < |targets| ==> !Occupied(cs, targets[t], paths) {
      forall j | 0 <= j < |cs| && Reaches(pod, plan, j) ensures PlanPathsFree(cs[j], plan) {
        var t := HitIsTarget(cs, targets, j);
        assert !Occupied(cs, targets[t], paths);
        PathExact(cs[j], plan);
      }
    }
  }

  lemma TakenExact(s: Progress, name: string)
    ensures InitTaken(s.pod, s.newInits, name) <==> !InitNameFree(s, name)
  {
  }

  /** Which collision is reported: the first that applies, in the order they are listed here. */
  lemma CollisionExact(s: Progress, plan: Plan)
    ensures var r := CheckCollisions(s.pod, plan, s.newInits, ResolveTargets(s.pod, plan).targets);
            var socket := SocketShared(s.pod.volumes, plan.csiDriver);
            && (r.None? <==> socket && VolumesFree(s.pod, plan) && InitsFree(s, plan) && PathsFree(s.pod, plan))
            && (r.Some? && (r.value.SocketNotCsi? || r.value.SocketDriver?) <==> !socket)
            && (r.Some? && r.value.VolumeExists? <==> socket && !VolumesFree(s.pod, plan))
            && (r.Some? && r.value.InitContainerExists?
                <==> socket && VolumesFree(s.pod, plan) && !InitsFree(s, plan))
            && (r.Some? && r.value.PathMounted?
                <==> && socket && VolumesFree(s.pod, plan) && InitsFree(s, plan) && !PathsFree(s.pod, plan))
  {
    SocketExact(s.pod, plan);
    PathsExact(s.pod, plan);
    var targets := ResolveTargets(s.pod, plan).targets;
    MountReason(s.pod.containers, targets, MountPaths(plan));
    TakenExact(s, InitContainerName(plan.shimName));
    TakenExact(s, RefreshContainerName(plan.shimName));
    hide ResolveTargets, MountProblem, SocketShared, PathsFree, InitTaken, InitNameFree, MountPaths;
  }

  /** The reported path is one of the plan's, mounted in the container that is named. */
  lemma {:induction false} MountReason(cs: seq<Container>, targets: seq<string>, paths: seq<string>)
    ensures var r := MountProblem(cs, targets, paths);
            r.Some? ==> && r.value.PathMounted? && r.value.container in targets && r.value.mountPath in paths
                        && exists j :: 0 <= j < |cs| && FirstNamed(cs, j) && cs[j].name == r.value.container
                                       && !PathFree(cs[j], r.value.mountPath)
  {
    if targets != [] {
      if Occupied(cs, targets[0], paths) {
        var c := FindContainer(cs, targets[0]).value;
        PathReason(cs[c], paths);
        assert FirstNamed(cs, c);
      } else {
        MountReason(cs, targets[1..], paths);
      }
    }
  }

  lemma {:induction false} PathReason(c: Container, paths: seq<string>)
    ensures var r := PathProblem(c, paths);
            r.Some? ==> && r.value.PathMounted? && r.value.container == c.name && r.value.mountPath in paths
                        && !PathFree(c, r.value.mountPath)
  {
    if paths != [] {
      PathReason(c, paths[1..]);
    }
  }

  predicate MountedInTarget(pod: PodState, plan: Plan, container: string, path: string)
  {
    && (path == plan.token.mountPath || exists i :: 0 <= i < |plan.files| && plan.files[i].path == path)
    && exists j :: && 0 <= j < |pod.containers| && Reaches(pod, plan, j)
                   && pod.containers[j].name == container && !PathFree(pod.containers[j], path)
  }

  /** A reported reason is a fact about the pod. */
  predicate ReasonHolds(s: Progress, plan: Plan, r: Reason)
  {
    match r
    case SocketNotCsi =>
      exists i :: 0 <= i < |s.pod.volumes| && FirstVolume(s.pod.volumes, i, "spiffe-workload-api")
                  && !s.pod.volumes[i].source.Csi?
    case SocketDriver(have, want) =>
      && want == plan.csiDriver && have != want
      && exists i :: 0 <= i < |s.pod.volumes| && FirstVolume(s.pod.volumes, i, "spiffe-workload-api")
                     && s.pod.volumes[i].source.Csi? && s.pod.volumes[i].source.driver == have
    case VolumeExists(name) =>
      && (name == plan.token.volumeName || name == "oidcshim-config-" + plan.shimName)
      && !VolumeNameFree(s.pod.volumes, name)
    case InitContainerExists(name) =>
      && (name == "oidcshim-init-" + plan.shimName || name == "oidcshim-refresh-" + plan.shimName)
      && !InitNameFree(s, name)
    case PathMounted(container, path) => MountedInTarget(s.pod, plan, container, path)
  }

  lemma {:induction false} SocketReason(s: Progress, plan: Plan)
    ensures var r := SocketProblem(s.pod, plan); r.Some? ==> ReasonHolds(s, plan, r.value)
  {
    hide FindVolume;
    if FindVolume(s.pod.volumes, SOCKET_VOLUME_NAME).Some? {
      var i := FoundVolumeIsFirst(s.pod.volumes, SOCKET_VOLUME_NAME);
    }
  }

  lemma MountedReason(s: Progress, plan: Plan)
    ensures var r := MountProblem(s.pod.containers, ResolveTargets(s.pod, plan).targets, MountPaths(plan));
            r.Some? ==> ReasonHolds(s, plan, r.value)
  {
    var cs, targets := s.pod.containers, ResolveTargets(s.pod, plan).targets;
    var r := MountProblem(cs, targets, MountPaths(plan));
    MountReason(cs, targets, MountPaths(plan));
    hide ResolveTargets, MountProblem, MountPaths, Reaches, FirstVolume;
    if r.Some? {
      PathIsPlans(plan, r.value.mountPath);
      var j :| 0 <= j < |cs| && FirstNamed(cs, j) && cs[j].name == r.value.container
               && !PathFree(cs[j], r.value.mountPath);
      var t :| 0 <= t < |targets| && targets[t] == r.value.container;
      FirstNamedFound(cs, j, targets[t]);
      HitsReach(s.pod, plan, t, j);
    }
  }

  lemma HitsReach(pod: PodState, plan: Plan, t: nat, j: nat)
    requires t < |ResolveTargets(pod, plan).targets|
    requires FindContainer(pod.containers, ResolveTargets(pod, plan).targets[t]) == Some(j)
    ensures Reaches(pod, plan, j)
  {
    hide ResolveTargets, FindContainer;
    HitByTarget(pod.containers, ResolveTargets(pod, plan).targets, t, j);
  }

  lemma PathIsPlans(plan: Plan, path: string)
    requires path in MountPaths(plan)
    ensures path == plan.token.mountPath || exists i :: 0 <= i < |plan.files| && plan.files[i].path == path
  {
    var p :| 0 <= p < |MountPaths(plan)| && MountPaths(plan)[p] == path;
    assert p > 0 ==> plan.files[p - 1].path == path;
  }

  lemma ReportedReasonHolds(s: Progress, plan: Plan)
    ensures var r := CheckCollisions(s.pod, plan, s.newInits, ResolveTargets(s.pod, plan).targets);
            r.Some? ==> ReasonHolds(s, plan, r.value)
  {
    SocketReason(s, plan);
    MountedReason(s, plan);
    TakenExact(s, InitContainerName(plan.shimName));
    TakenExact(s, RefreshContainerName(plan.shimName));
    hide ResolveTargets, SocketProblem, MountProblem, MountedInTarget, InitTaken, InitNameFree, FirstVolume;
  }

  lemma SomeTargetExact(pod: PodState, plan: Plan, names: seq<string>)
    requires Asked(pod, plan, names)
    ensures var t := ResolveTargets(pod, plan);
            t.requested == names && (|t.requested| > 0 && |t.targets| == 0 <==> !SomeTarget(pod, names))
  {
    var cs, t := pod.containers, ResolveTargets(pod, plan);
    var at := TargetsExact(pod, plan, "", AlreadyInjected);
    assert t.requested == names;
    if names != [] && |t.targets| == 0 {
      forall i | 0 <= i < |names| ensures !HasContainer(cs, names[i]) {
        var dummy := TargetsExact(pod, plan, names[i], AlreadyInjected);
        assert names[i] in names;
      }
    }
    if names != [] && |t.targets| > 0 {
      var dummy := TargetsExact(pod, plan, t.targets[0], AlreadyInjected);
      assert t.targets[0] in t.targets && names[at[0]] == t.targets[0];
    }
  }

  /** Socket, volume names, container names and mount paths: nothing is in the plan's way. */
  predicate Unclaimed(s: Progress, plan: Plan)
  {
    && SocketShared(s.pod.volumes, plan.csiDriver) && VolumesFree(s.pod, plan) && InitsFree(s, plan)
    && PathsFree(s.pod, plan)
  }

  lemma UnclaimedExact(s: Progress, plan: Plan)
    ensures CheckCollisions(s.pod, plan, s.newInits, ResolveTargets(s.pod, plan).targets).None? <==> Unclaimed(s, plan)
  {
    CollisionExact(s, plan);
    hide ResolveTargets, CheckCollisions, SocketShared, VolumesFree, InitsFree, PathsFree;
  }

  /**
    A plan is accepted exactly when its content fits, a container asked for exists, the socket
    volume can be shared, and its volume names, container names and mount paths are free.  What a
    refusal reports is the first of these that fails, with figures and names that are true.
   */
  lemma RefusalExact(existing: nat, s: Progress, plan: Plan, names: seq<string>)
    requires Asked(s.pod, plan, names)
    ensures var r, total := Refusal(existing, s, plan), existing + s.addedBytes + RenderedBytes(plan);
            var fits, target := WithinBytes(existing, s, plan), SomeTarget(s.pod, names);
            && (r.None? <==> fits && target && Unclaimed(s, plan))
            && (!fits <==> r == Some(BudgetExceeded(plan.shimKey, total)))
            && (fits && !target <==> r == Some(NoRequestedContainer(plan.shimName, names)))
            && (r.Some? && fits && target ==> && r.value.Collision? && r.value.shim == plan.shimName
                                              && ReasonHolds(s, plan, r.value.reason))
  {
    hide ResolveTargets, CheckCollisions, Unclaimed, SomeTarget, ReasonHolds, Asked, ContentBytes;
    UnclaimedExact(s, plan);
    ReportedReasonHolds(s, plan);
    SomeTargetExact(s.pod, plan, names);
  }

  /* ---------- variables left alone ---------- */

  predicate NamesEarlier(env: seq<EnvVar>, i: nat)
    requires i < |env|
  {
    exists j :: 0 <= j < i && env[j].name == env[i].name
  }

  lemma {:induction false} AddedHas(env: seq<EnvVar>, more: seq<EnvVar>, name: string)
    ensures HasEnv(AddEnv(env, more), name) <==> HasEnv(env, name) || HasEnv(more, name)
  {
    hide AddEnv, HasEnv;
    AddEnvLookup(env, more, name);
    FindEnvAppend(env, more, name);
  }

  predicate LeftAlone(w: Warning, shim: string, container: string, env: seq<EnvVar>, more: seq<EnvVar>)
  {
    exists i :: 0 <= i < |more| && w == EnvLeftUntouched(shim, container, more[i].name)
                && (HasEnv(env, more[i].name) || NamesEarlier(more, i))
  }

  /** A variable is reported exactly when the container, or an earlier entry of the plan, defines it. */
  lemma {:induction false} EnvWarningsExact(shim: string, container: string, env: seq<EnvVar>, more: seq<EnvVar>,
                                            w: Warning)
    ensures w in EnvWarnings(shim, container, env, more) <==> LeftAlone(w, shim, container, env, more)
  {
    if more != [] {
      var n := |more| - 1;
      var front, e := more[..n], more[n];
      EnvWarningsExact(shim, container, env, front, w);
      AddedHas(env, front, e.name);
      hide AddEnv, HasEnv;
      LeftAloneSnoc(w, shim, container, env, front, e);
      assert more == front + [e];
    }
  }

  lemma {:induction false} LeftAloneSnoc(w: Warning, shim: string, container: string, env: seq<EnvVar>,
                                         front: seq<EnvVar>, e: EnvVar)
    ensures LeftAlone(w, shim, container, env, front + [e])
            <==> LeftAlone(w, shim, container, env, front)
                 || (w == EnvLeftUntouched(shim, container, e.name)
                     && (HasEnv(env, e.name) || HasEnv(front, e.name)))
  {
    var all, n := front + [e], |front|;
    assert HasEnv(front, e.name) <==> NamesEarlier(all, n) by {
      assert forall i :: 0 <= i < n ==> all[i] == front[i];
    }
    hide HasEnv;
    forall i | 0 <= i < n ensures all[i] == front[i] && (NamesEarlier(front, i) <==> NamesEarlier(all, i)) {
      assert forall j :: 0 <= j <= i ==> all[j] == front[j];
    }
    hide NamesEarlier;
    if LeftAlone(w, shim, container, env, all) {
      var i :| 0 <= i < |all| && w == EnvLeftUntouched(shim, container, all[i].name)
               && (HasEnv(env, all[i].name) || NamesEarlier(all, i));
      assert i < n ==> LeftAlone(w, shim, container, env, front);
    }
    if LeftAlone(w, shim, container, env, front) {
      var i :| 0 <= i < n && w == EnvLeftUntouched(shim, container, front[i].name)
               && (HasEnv(env, front[i].name) || NamesEarlier(front, i));
      assert all[i] == front[i];
    }
    assert all[n] == e;
  }

  /** A variable of the plan is offered to the container in vain; a second visit finds them all there. */
  predicate InVain(c: Container, plan: Plan, again: bool, w: Warning)
  {
    exists i :: 0 <= i < |plan.env| && w == EnvLeftUntouched(plan.shimName, c.name, plan.env[i].name)
                && (HasEnv(c.env, plan.env[i].name) || NamesEarlier(plan.env, i) || again)
  }

  predicate VainAt(cs: seq<Container>, plan: Plan, targets: seq<string>, t: nat, w: Warning)
    requires t < |targets|
  {
    exists j :: 0 <= j < |cs| && FirstNamed(cs, j) && cs[j].name == targets[t]
                && InVain(cs[j], plan, targets[t] in targets[..t], w)
  }

  lemma {:induction false} EarlierHit(cs: seq<Container>, targets: seq<string>, j: nat)
    requires FirstNamed(cs, j)
    ensures Hits(cs, targets, j) >= 1 <==> cs[j].name in targets
  {
    hide Hits;
    if Hits(cs, targets, j) >= 1 {
      var t := HitIsTarget(cs, targets, j);
    }
    if cs[j].name in targets {
      var t :| 0 <= t < |targets| && targets[t] == cs[j].name;
      FirstNamedFound(cs, j, targets[t]);
      HitByTarget(cs, targets, t, j);
    }
  }

  /** What one visit reports, by what the container had before the plan. */
  lemma {:induction false} VisitWarns(cs: seq<Container>, plan: Plan, front: seq<string>, j: nat, w: Warning)
    requires FirstNamed(cs, j)
    ensures w in EnvWarnings(plan.shimName, cs[j].name, InjectAll(cs, plan, front)[j].env, plan.env)
            <==> InVain(cs[j], plan, cs[j].name in front, w)
  {
    var before := InjectAll(cs, plan, front)[j].env;
    EarlierHit(cs, front, j);
    EnvWarningsExact(plan.shimName, cs[j].name, before, plan.env, w);
    forall v: string
      ensures HasEnv(before, v) <==> HasEnv(cs[j].env, v) || (cs[j].name in front && HasEnv(plan.env, v))
    {
      EnvAfterPlan(cs, plan, front, j, v);
      FindEnvAppend(cs[j].env, plan.env, v);
      assert cs[j].env + [] == cs[j].env;
    }
    assert forall i :: 0 <= i < |plan.env| ==> HasEnv(plan.env, plan.env[i].name);
    hide EnvWarnings, InjectAll, HasEnv, NamesEarlier, Hits;
  }

  lemma {:induction false} LastTargetWarns(cs: seq<Container>, plan: Plan, targets: seq<string>, w: Warning)
    requires targets != []
    ensures var n := |targets| - 1;
            w in InjectWarnings(cs, plan, targets)
            <==> w in InjectWarnings(cs, plan, targets[..n]) || VainAt(cs, plan, targets, n, w)
  {
    hide EnvWarnings, InjectAll, InVain;
    var n := |targets| - 1;
    var front, name := targets[..n], targets[n];
    var before := InjectAll(cs, plan, front);
    assert ContainerNames(cs) == ContainerNames(before);
    FindContainerByNames(cs, before, name);
    var c := FindContainer(cs, name);
    if c.Some? {
      FirstNamedFound(cs, c.value, name);
      VisitWarns(cs, plan, front, c.value, w);
    }
  }

  /** A plan's reports over all its targets: every variable some visit offers in vain, and no other. */
  lemma {:induction false} InjectWarningsExact(cs: seq<Container>, plan: Plan, targets: seq<string>, w: Warning)
    ensures w in InjectWarnings(cs, plan, targets)
            <==> exists t :: 0 <= t < |targets| && VainAt(cs, plan, targets, t, w)
  {
    hide InjectWarnings, InVain, FirstNamed;
    if targets == [] {
      NoTargetsNoWarnings(cs, plan);
    } else {
      var n := |targets| - 1;
      var front := targets[..n];
      LastTargetWarns(cs, plan, targets, w);
      InjectWarningsExact(cs, plan, front, w);
      forall t | 0 <= t < n ensures VainAt(cs, plan, front, t, w) <==> VainAt(cs, plan, targets, t, w) {
        assert front[t] == targets[t] && front[..t] == targets[..t];
      }
    }
  }

  lemma {:induction false} NoTargetsNoWarnings(cs: seq<Container>, plan: Plan)
    ensures InjectWarnings(cs, plan, []) == []
  {
  }

  /* ---------- one turn ---------- */

  /** What a turn adds to the warnings, member by member. */
  predicate Reported(existing: nat, s: Progress, plan: Plan, names: seq<string>, w: Warning)
  {
    || (&& WithinBytes(existing, s, plan) && w.ContainerNotFound? && w.shim == plan.shimName
        && w.container in names && !HasContainer(s.pod.containers, w.container))
    || Refusal(existing, s, plan) == Some(w)
    || (&& Refusal(existing, s, plan).None?
        && var targets := ResolveTargets(s.pod, plan).targets;
           exists t :: 0 <= t < |targets| && VainAt(s.pod.containers, plan, targets, t, w))
  }

  lemma TurnWarns(existing: nat, s: Progress, plan: Plan, names: seq<string>, w: Warning)
    requires Asked(s.pod, plan, names)
    ensures w in Step(existing, s, plan).warnings <==> w in s.warnings || Reported(existing, s, plan, names, w)
  {
    var t := ResolveTargets(s.pod, plan);
    TurnAppends(existing, s, plan);
    TargetsWarn(existing, s, plan, names, w);
    InjectWarningsExact(s.pod.containers, plan, t.targets, w);
    hide Step, Refusal, ResolveTargets, VainAt, InjectWarnings, TargetWarnings, HasContainer, WithinBytes, Asked;
  }

  lemma {:induction false} TurnAppends(existing: nat, s: Progress, plan: Plan)
    ensures var r := Refusal(existing, s, plan);
            Step(existing, s, plan).warnings
            == s.warnings + TargetWarnings(existing, s, plan)
               + if r.Some? then [r.value]
                 else InjectWarnings(s.pod.containers, plan, ResolveTargets(s.pod, plan).targets)
  {
    hide Refusal, ResolveTargets, InjectPlan, HelperContainers, InjectWarnings, TargetWarnings, RenderedBytes;
  }

  lemma TargetsWarn(existing: nat, s: Progress, plan: Plan, names: seq<string>, w: Warning)
    requires Asked(s.pod, plan, names)
    ensures w in TargetWarnings(existing, s, plan)
            <==> && WithinBytes(existing, s, plan) && w.ContainerNotFound? && w.shim == plan.shimName
                 && w.container in names && !HasContainer(s.pod.containers, w.container)
  {
    var dummy := TargetsExact(s.pod, plan, "", w);
    assert ResolveTargets(s.pod, plan).requested == names;
    hide ResolveTargets, HasContainer, ContentBytes;
  }

  ghost predicate ReportedAt(existing: nat, pod: PodState, plans: seq<Plan>, n: nat, w: Warning)
    requires n < |plans|
  {
    var here := Run(existing, Start(pod), plans[..n]);
    exists names :: Asked(here.pod, plans[n], names) && Reported(existing, here, plans[n], names, w)
  }

  function AskedNames(pod: PodState, plan: Plan): (names: seq<string>)
    ensures Asked(pod, plan, names)
  {
    ContainersKey();
    ResolveTargets(pod, plan).requested
  }

  /** The warnings of a whole call: everything some turn reports, and nothing else. */
  lemma {:induction false} RunWarns(existing: nat, pod: PodState, plans: seq<Plan>, w: Warning)
    ensures w in Run(existing, Start(pod), plans).warnings
            <==> exists n :: 0 <= n < |plans| && ReportedAt(existing, pod, plans, n, w)
  {
    hide Step, ReportedAt;
    if plans != [] {
      var n := |plans| - 1;
      var front := plans[..n];
      RunWarns(existing, pod, front, w);
      LastTurnWarns(existing, pod, plans, w);
      forall i | 0 <= i < n
        ensures ReportedAt(existing, pod, front, i, w) <==> ReportedAt(existing, pod, plans, i, w)
      {
        ReportedAtLocal(existing, pod, plans, n, i, w);
      }
    }
  }

  lemma {:induction false} LastTurnWarns(existing: nat, pod: PodState, plans: seq<Plan>, w: Warning)
    requires plans != []
    ensures var n := |plans| - 1;
            w in Run(existing, Start(pod), plans).warnings
            <==> w in Run(existing, Start(pod), plans[..n]).warnings || ReportedAt(existing, pod, plans, n, w)
  {
    hide Step, Reported, Asked;
    var n := |plans| - 1;
    var here := Run(existing, Start(pod), plans[..n]);
    var names := AskedNames(here.pod, plans[n]);
    TurnWarns(existing, here, plans[n], names, w);
    forall other | Asked(here.pod, plans[n], other) ensures other == names {
      AskedOnce(here.pod, plans[n], other, names);
    }
  }

  lemma {:induction false} ReportedAtLocal(existing: nat, pod: PodState, plans: seq<Plan>, n: nat, i: nat, w: Warning)
    requires i < n <= |plans|
    ensures ReportedAt(existing, pod, plans[..n], i, w) <==> ReportedAt(existing, pod, plans, i, w)
  {
    hide Run, Reported, Asked;
    assert plans[..n][..i] == plans[..i] && plans[..n][i] == plans[i];
  }

  lemma AskedOnce(pod: PodState, plan: Plan, a: seq<string>, b: seq<string>)
    requires Asked(pod, plan, a) && Asked(pod, plan, b)
    ensures a == b
  {
  }

  /** A pod that was injected is left alone, whatever plans come next. */
  lemma ApplyTwice(pod: PodState, plans: seq<Plan>, more: seq<Plan>)
    requires Apply(pod, plans).applied != []
    ensures var out := Apply(pod, plans);
            && "oidcshim.kemo.dev/status" in out.pod.annotations
            && out.pod.annotations["oidcshim.kemo.dev/status"] == "injected"
            && Apply(out.pod, more) == Outcome(out.pod, [], [AlreadyInjected])
  {
    hide Run, Bytes.MapBytes;
    assert STATUS_ANNOTATION == "oidcshim.kemo.dev/status" && STATUS_INJECTED == "injected";
    BookkeepingKeysApart();
  }
}
