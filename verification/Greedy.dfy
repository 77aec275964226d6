/**
  The engine as a greedy allocator: everything a pod already has survives every turn of the loop,
  a refused plan stays refused, skipped plans leave no trace, and the deferred prepend of init
  containers refines a plan-by-plan insertion.
 */
module Greedy {
  import opened Text
  import opened Keys
  import opened Bytes
  import opened Pods
  import opened Injection

  /* ---------- the order on states ---------- */

  predicate Grown(c: Container, d: Container)
  {
    && d == c.(mounts := d.mounts, env := d.env)
    && c.mounts <= d.mounts
    && c.env <= d.env
  }

  predicate AllGrown(cs: seq<Container>, ds: seq<Container>)
  {
    |cs| == |ds| && forall i :: 0 <= i < |cs| ==> Grown(cs[i], ds[i])
  }

  predicate SameFilter(a: map<string, string>, b: map<string, string>)
  {
    && (CONTAINERS_ANNOTATION in a <==> CONTAINERS_ANNOTATION in b)
    && (CONTAINERS_ANNOTATION in a ==> a[CONTAINERS_ANNOTATION] == b[CONTAINERS_ANNOTATION])
  }

  /** Nothing the first pod has is lost in the second: lists grow at the end only. */
  predicate Extends(a: PodState, b: PodState)
  {
    && a.volumes <= b.volumes
    && AllGrown(a.containers, b.containers)
    && SameFilter(a.annotations, b.annotations)
    && b.initContainers == a.initContainers
    && b.namespace == a.namespace
    && b.serviceAccountName == a.serviceAccountName
  }

  predicate Later(s: Progress, t: Progress)
  {
    && Extends(s.pod, t.pod)
    && s.newInits <= t.newInits
    && s.addedBytes <= t.addedBytes
    && s.applied <= t.applied
    && s.warnings <= t.warnings
  }

  lemma LaterReflexive(s: Progress)
    ensures Later(s, s)
  {
  }

  lemma LaterTransitive(s: Progress, t: Progress, u: Progress)
    requires Later(s, t) && Later(t, u)
    ensures Later(s, u)
  {
    var a, b, c := s.pod.containers, t.pod.containers, u.pod.containers;
    forall i | 0 <= i < |a| ensures Grown(a[i], c[i]) {
      assert Grown(a[i], b[i]) && Grown(b[i], c[i]);
    }
  }

  lemma {:induction false} AddEnvGrows(env: seq<EnvVar>, more: seq<EnvVar>)
    ensures env <= AddEnv(env, more)
  {
    if more != [] {
      AddEnvGrows(env, more[..|more| - 1]);
    }
  }

  lemma {:induction false} InjectAllGrows(cs: seq<Container>, plan: Plan, targets: seq<string>)
    ensures AllGrown(cs, InjectAll(cs, plan, targets))
  {
    if targets != [] {
      var before := InjectAll(cs, plan, targets[..|targets| - 1]);
      InjectAllGrows(cs, plan, targets[..|targets| - 1]);
      var c := FindContainer(before, targets[|targets| - 1]);
      if c.Some? {
        AddEnvGrows(before[c.value].env, plan.env);
        assert Grown(cs[c.value], before[c.value]);
      }
    }
  }

  /** A plan writes its own payload keys and no others. */
  lemma {:induction false} WriteFilesFrame(m: map<string, string>, plan: Plan, n: nat, key: string)
    requires n <= |plan.files|
    requires forall i :: 0 <= i < n ==> key != FileAnnotation(plan.shimName, i)
    ensures key in WriteFiles(m, plan, n) <==> key in m
    ensures key in m ==> WriteFiles(m, plan, n)[key] == m[key]
  {
    if n > 0 {
      WriteFilesFrame(m, plan, n - 1, key);
    }
  }

  lemma PayloadFrame(m: map<string, string>, plan: Plan, key: string)
    requires key != HelperConfAnnotation(plan.shimName)
    requires forall i :: 0 <= i < |plan.files| ==> key != FileAnnotation(plan.shimName, i)
    ensures key in WritePayload(m, plan) <==> key in m
    ensures key in m ==> WritePayload(m, plan)[key] == m[key]
  {
    WriteFilesFrame(m[HelperConfAnnotation(plan.shimName) := plan.helperConf], plan, |plan.files|, key);
  }

  lemma PayloadSparesBookkeeping(m: map<string, string>, plan: Plan, key: string)
    requires key in {STATUS_ANNOTATION, SHIMS_ANNOTATION, CONTAINERS_ANNOTATION}
    ensures key in WritePayload(m, plan) <==> key in m
    ensures key in m ==> WritePayload(m, plan)[key] == m[key]
  {
    PayloadKeysApart(plan.shimName, 0, plan.shimName);
    forall i | 0 <= i < |plan.files| ensures key != FileAnnotation(plan.shimName, i) {
      PayloadKeysApart(plan.shimName, i, plan.shimName);
    }
    PayloadFrame(m, plan, key);
  }

  lemma StepLater(existing: nat, s: Progress, plan: Plan)
    ensures Later(s, Step(existing, s, plan))
  {
    hide Refusal, ResolveTargets, WritePayload, InjectAll, InjectWarnings, NewVolumes, HelperContainers;
    var targets := ResolveTargets(s.pod, plan).targets;
    InjectAllGrows(s.pod.containers, plan, targets);
    PayloadSparesBookkeeping(s.pod.annotations, plan, CONTAINERS_ANNOTATION);
  }

  lemma {:induction false} RunLater(existing: nat, s: Progress, plans: seq<Plan>, k: nat)
    requires k <= |plans|
    ensures Later(Run(existing, s, plans[..k]), Run(existing, s, plans))
    decreases |plans| - k
  {
    hide Step, Later;
    if k == |plans| {
      assert plans[..k] == plans;
      LaterReflexive(Run(existing, s, plans));
    } else {
      var here := Run(existing, s, plans[..k]);
      assert plans[..k + 1][..k] == plans[..k];
      StepLater(existing, here, plans[k]);
      RunLater(existing, s, plans, k + 1);
      LaterTransitive(here, Step(existing, here, plans[k]), Run(existing, s, plans));
    }
  }

  /* ---------- refusal is monotone ---------- */

  lemma NamesKept(cs: seq<Container>, ds: seq<Container>)
    requires AllGrown(cs, ds)
    ensures ContainerNames(cs) == ContainerNames(ds)
  {
    forall i | 0 <= i < |cs| ensures ContainerNames(cs)[i] == ContainerNames(ds)[i] {
      assert Grown(cs[i], ds[i]);
    }
  }

  lemma {:induction false} ExistingByNames(cs: seq<Container>, ds: seq<Container>, shim: string, names: seq<string>)
    requires ContainerNames(cs) == ContainerNames(ds)
    ensures Existing(cs, names) == Existing(ds, names)
    ensures NotFound(cs, shim, names) == NotFound(ds, shim, names)
  {
    if names != [] {
      ExistingByNames(cs, ds, shim, names[..|names| - 1]);
      FindContainerByNames(cs, ds, names[|names| - 1]);
    }
  }

  /** Target resolution reads only container names and the pod's filter, which no plan touches. */
  lemma TargetsKept(a: PodState, b: PodState, plan: Plan)
    requires Extends(a, b)
    ensures ResolveTargets(a, plan) == ResolveTargets(b, plan)
  {
    NamesKept(a.containers, b.containers);
    var fromPod := ContainersFromAnnotation(a.annotations);
    var requested := if fromPod != [] then fromPod else plan.containers;
    ExistingByNames(a.containers, b.containers, plan.shimName, requested);
  }

  lemma {:induction false} VolumeKept(a: seq<Volume>, b: seq<Volume>, name: string)
    requires a <= b
    ensures FindVolume(a, name).Some? ==> FindVolume(b, name) == FindVolume(a, name)
  {
    FindVolumeAppend(a, b[|a|..], name);
    assert b == a + b[|a|..];
  }

  lemma {:induction false} ContainerKept(a: seq<Container>, b: seq<Container>, name: string)
    requires a <= b
    ensures FindContainer(a, name).Some? ==> FindContainer(b, name).Some?
  {
  }

  lemma OccupiedKept(cs: seq<Container>, ds: seq<Container>, target: string, paths: seq<string>)
    requires AllGrown(cs, ds) && Occupied(cs, target, paths)
    ensures Occupied(ds, target, paths)
  {
    NamesKept(cs, ds);
    FindContainerByNames(cs, ds, target);
    hide PathProblem;
    var at := FindContainer(cs, target).value;
    PathProblemKept(cs[at], ds[at], paths);
  }

  lemma {:induction false} PathProblemKept(c: Container, d: Container, paths: seq<string>)
    requires Grown(c, d) && PathProblem(c, paths).Some?
    ensures PathProblem(d, paths).Some?
  {
    PathProblemIff(c, paths);
    PathProblemIff(d, paths);
    hide PathProblem;
    var i :| 0 <= i < |paths| && FindMount(c.mounts, paths[i]).Some?;
    assert d.mounts == c.mounts + d.mounts[|c.mounts|..];
    FindMountAppend(c.mounts, d.mounts[|c.mounts|..], paths[i]);
  }

  lemma {:induction false} MountProblemKept(cs: seq<Container>, ds: seq<Container>, targets: seq<string>,
                                            paths: seq<string>)
    requires AllGrown(cs, ds) && MountProblem(cs, targets, paths).Some?
    ensures MountProblem(ds, targets, paths).Some?
  {
    MountProblemIff(cs, targets, paths);
    MountProblemIff(ds, targets, paths);
    var i :| 0 <= i < |targets| && Occupied(cs, targets[i], paths);
    OccupiedKept(cs, ds, targets[i], paths);
  }

  lemma CollisionKept(a: PodState, b: PodState, plan: Plan, pending: seq<Container>, later: seq<Container>,
                      targets: seq<string>)
    requires Extends(a, b) && pending <= later
    requires CheckCollisions(a, plan, pending, targets).Some?
    ensures CheckCollisions(b, plan, later, targets).Some?
  {
    hide MountProblem, AllGrown, InitContainerName, RefreshContainerName, ConfigVolumeName;
    VolumeKept(a.volumes, b.volumes, SOCKET_VOLUME_NAME);
    VolumeKept(a.volumes, b.volumes, plan.token.volumeName);
    VolumeKept(a.volumes, b.volumes, ConfigVolumeName(plan.shimName));
    ContainerKept(pending, later, InitContainerName(plan.shimName));
    ContainerKept(pending, later, RefreshContainerName(plan.shimName));
    if MountProblem(a.containers, targets, MountPaths(plan)).Some? {
      MountProblemKept(a.containers, b.containers, targets, MountPaths(plan));
    }
  }

  /** A plan refused for any reason is refused in every later state of the same loop. */
  lemma RefusalMonotone(existing: nat, s: Progress, t: Progress, plan: Plan)
    requires Later(s, t)
    requires Refusal(existing, s, plan).Some?
    ensures Refusal(existing, t, plan).Some?
  {
    TargetsKept(s.pod, t.pod, plan);
    var targets := ResolveTargets(s.pod, plan).targets;
    if CheckCollisions(s.pod, plan, s.newInits, targets).Some? {
      CollisionKept(s.pod, t.pod, plan, s.newInits, t.newInits, targets);
    }
  }

  /** An applied plan occupies its own init container name, so it cannot be applied again. */
  lemma AppliedRefusesItself(existing: nat, s: Progress, plan: Plan)
    requires Refusal(existing, s, plan).None?
    ensures Refusal(existing, Step(existing, s, plan), plan).Some?
  {
    hide InjectPlan, InjectWarnings, ResolveTargets;
    var t := Step(existing, s, plan);
    var at := |s.newInits|;
    assert t.newInits[at] == HelperContainer(plan, false);
    assert t.newInits[at].name == InitContainerName(plan.shimName);
    assert FindContainer(t.newInits, InitContainerName(plan.shimName)).Some?;
  }

  /** The greedy result is maximal: in the final state every plan of the list is refused. */
  lemma {:induction false} GreedyMaximal(existing: nat, s: Progress, plans: seq<Plan>, i: nat)
    requires i < |plans|
    ensures Refusal(existing, Run(existing, s, plans), plans[i]).Some?
  {
    hide Step, Later, Refusal;
    var here := Run(existing, s, plans[..i]);
    var next := Run(existing, s, plans[..i + 1]);
    assert plans[..i + 1][..i] == plans[..i];
    assert next == Step(existing, here, plans[i]);
    if Refusal(existing, here, plans[i]).None? {
      AppliedRefusesItself(existing, here, plans[i]);
    } else {
      StepLater(existing, here, plans[i]);
      RefusalMonotone(existing, here, next, plans[i]);
    }
    RunLater(existing, s, plans, i + 1);
    RefusalMonotone(existing, next, Run(existing, s, plans), plans[i]);
  }

  /* ---------- skipped plans leave no trace ---------- */

  predicate SameUpToWarnings(s: Progress, t: Progress)
  {
    s.pod == t.pod && s.newInits == t.newInits && s.addedBytes == t.addedBytes && s.applied == t.applied
  }

  lemma StepIgnoresWarnings(existing: nat, s: Progress, t: Progress, plan: Plan)
    requires SameUpToWarnings(s, t)
    ensures Refusal(existing, s, plan) == Refusal(existing, t, plan)
    ensures SameUpToWarnings(Step(existing, s, plan), Step(existing, t, plan))
  {
    hide CheckCollisions, ResolveTargets, InjectPlan, InjectWarnings;
  }

  lemma StepApplied(existing: nat, s: Progress, plan: Plan)
    ensures Step(existing, s, plan).applied
            == if Refusal(existing, s, plan).None? then s.applied + [plan] else s.applied
  {
    hide Refusal, InjectPlan, InjectWarnings, ResolveTargets, HelperContainers, RenderedBytes;
  }

  lemma StepQueue(existing: nat, s: Progress, plan: Plan)
    ensures Step(existing, s, plan).newInits
            == if Refusal(existing, s, plan).None? then s.newInits + HelperContainers(plan) else s.newInits
  {
    hide Refusal, InjectPlan, InjectWarnings, ResolveTargets, HelperContainers, RenderedBytes;
  }

  lemma StepBytes(existing: nat, s: Progress, plan: Plan)
    ensures Step(existing, s, plan).addedBytes
            == if Refusal(existing, s, plan).None? then s.addedBytes + RenderedBytes(plan) else s.addedBytes
    ensures Refusal(existing, s, plan).None? ==>
              existing + s.addedBytes + RenderedBytes(plan) <= MAX_POD_ANNOTATION_BYTES
  {
    hide CheckCollisions, InjectPlan, InjectWarnings, ResolveTargets, HelperContainers, RenderedBytes;
  }

  lemma StepPod(existing: nat, s: Progress, plan: Plan)
    ensures Step(existing, s, plan).pod
            == if Refusal(existing, s, plan).None? then InjectPlan(s.pod, plan, ResolveTargets(s.pod, plan).targets)
               else s.pod
  {
    hide Refusal, InjectPlan, InjectWarnings, ResolveTargets, HelperContainers, RenderedBytes;
  }

  /** A refused plan changes nothing but the list of warnings. */
  lemma RefusedChangesNothing(existing: nat, s: Progress, plan: Plan)
    requires Refusal(existing, s, plan).Some?
    ensures SameUpToWarnings(Step(existing, s, plan), s)
  {
    hide Refusal, InjectPlan, InjectWarnings, ResolveTargets, HelperContainers, RenderedBytes;
  }

  lemma {:induction false} AppliedGrow(existing: nat, s: Progress, plans: seq<Plan>)
    ensures s.applied <= Run(existing, s, plans).applied
  {
    hide Step;
    if plans != [] {
      AppliedGrow(existing, s, plans[..|plans| - 1]);
      StepApplied(existing, Run(existing, s, plans[..|plans| - 1]), plans[|plans| - 1]);
    }
  }

  /** Running only the plans that were applied gives the same state and applies all of them. */
  lemma {:induction false} SkippingInvisible(existing: nat, s: Progress, plans: seq<Plan>)
    ensures s.applied <= Run(existing, s, plans).applied
    ensures var chosen := Run(existing, s, plans).applied[|s.applied|..];
            && SameUpToWarnings(Run(existing, s, chosen), Run(existing, s, plans))
            && Run(existing, s, chosen).applied == s.applied + chosen
  {
    hide Step, Refusal;
    AppliedGrow(existing, s, plans);
    if plans != [] {
      var front, plan := plans[..|plans| - 1], plans[|plans| - 1];
      SkippingInvisible(existing, s, front);
      AppliedGrow(existing, s, front);
      var here := Run(existing, s, front);
      var chosen := here.applied[|s.applied|..];
      var there := Run(existing, s, chosen);
      StepIgnoresWarnings(existing, there, here, plan);
      StepApplied(existing, here, plan);
      StepApplied(existing, there, plan);
      if Refusal(existing, here, plan).Some? {
        RefusedChangesNothing(existing, here, plan);
      } else {
        var longer := Run(existing, s, plans).applied[|s.applied|..];
        assert longer == chosen + [plan];
        assert longer[..|longer| - 1] == chosen;
      }
    }
    var r := Run(existing, s, plans);
    assert r.applied == s.applied + r.applied[|s.applied|..];
  }

  /** The same for the whole call: `Apply` on its own applied list is a fixed point. */
  lemma ApplyOnAppliedIsSame(pod: PodState, plans: seq<Plan>)
    requires !Injected(pod)
    ensures Apply(pod, Apply(pod, plans).applied).pod == Apply(pod, plans).pod
    ensures Apply(pod, Apply(pod, plans).applied).applied == Apply(pod, plans).applied
  {
    var existing := MapBytes(pod.annotations);
    SkippingInvisible(existing, Start(pod), plans);
    var r := Run(existing, Start(pod), plans);
    assert r.applied[0..] == r.applied;
  }

  /* ---------- who is applied, who is warned about ---------- */

  predicate SkipWarning(w: Warning, plan: Plan)
  {
    || (w.BudgetExceeded? && w.shimKey == plan.shimKey)
    || (w.NoRequestedContainer? && w.shim == plan.shimName)
    || (w.Collision? && w.shim == plan.shimName)
  }

  predicate Picks(plans: seq<Plan>, applied: seq<Plan>, at: seq<nat>)
  {
    && |at| == |applied|
    && (forall k :: 0 <= k < |at| ==> at[k] < |plans| && plans[at[k]] == applied[k])
    && (forall k, l :: 0 <= k < l < |at| ==> at[k] < at[l])
  }

  ghost predicate Warned(warnings: seq<Warning>, plan: Plan)
  {
    exists w :: w in warnings && SkipWarning(w, plan)
  }

  lemma RefusedIsWarned(existing: nat, s: Progress, plan: Plan)
    requires Refusal(existing, s, plan).Some?
    ensures Warned(Step(existing, s, plan).warnings, plan)
    ensures Step(existing, s, plan).applied == s.applied
  {
    var w := Refusal(existing, s, plan).value;
    assert SkipWarning(w, plan);
    var ws := Step(existing, s, plan).warnings;
    assert ws[|ws| - 1] == w;
  }

  lemma WarnedKept(warnings: seq<Warning>, more: seq<Warning>, plan: Plan)
    requires Warned(warnings, plan) && warnings <= more
    ensures Warned(more, plan)
  {
    var w :| w in warnings && SkipWarning(w, plan);
    assert w in more;
  }

  lemma PicksMore(plans: seq<Plan>, applied: seq<Plan>, at: seq<nat>)
    requires plans != [] && Picks(plans[..|plans| - 1], applied, at)
    ensures Picks(plans, applied, at)
    ensures Picks(plans, applied + [plans[|plans| - 1]], at + [|plans| - 1])
  {
  }

  lemma StepWarnings(existing: nat, s: Progress, plan: Plan)
    ensures s.warnings <= Step(existing, s, plan).warnings
  {
    hide Later;
    StepLater(existing, s, plan);
    LaterWarnings(s, Step(existing, s, plan));
  }

  lemma LaterWarnings(s: Progress, t: Progress)
    requires Later(s, t)
    ensures s.warnings <= t.warnings
  {
  }

  ghost predicate Accounted(plans: seq<Plan>, warnings: seq<Warning>, at: seq<nat>)
  {
    forall i :: 0 <= i < |plans| ==> i in at || Warned(warnings, plans[i])
  }

  lemma AccountApplied(plans: seq<Plan>, at: seq<nat>, warnings: seq<Warning>, warnings': seq<Warning>)
    requires plans != [] && warnings <= warnings'
    requires Accounted(plans[..|plans| - 1], warnings, at)
    ensures Accounted(plans, warnings', at + [|plans| - 1])
  {
    hide Warned;
    var n := |plans| - 1;
    assert (at + [n])[|at|] == n;
    forall i | 0 <= i < |plans| ensures i in at + [n] || Warned(warnings', plans[i]) {
      if i < n && i !in at {
        assert plans[..n][i] == plans[i];
        WarnedKept(warnings, warnings', plans[i]);
      }
    }
  }

  lemma AccountSkipped(plans: seq<Plan>, at: seq<nat>, warnings: seq<Warning>, warnings': seq<Warning>)
    requires plans != [] && warnings <= warnings' && Warned(warnings', plans[|plans| - 1])
    requires Accounted(plans[..|plans| - 1], warnings, at)
    ensures Accounted(plans, warnings', at)
  {
    hide Warned;
    var n := |plans| - 1;
    forall i | 0 <= i < |plans| ensures i in at || Warned(warnings', plans[i]) {
      if i < n && i !in at {
        assert plans[..n][i] == plans[i];
        WarnedKept(warnings, warnings', plans[i]);
      }
    }
  }

  /** `applied` is a subsequence of the input; every plan outside it carries a skip warning. */
  lemma {:induction false} AppliedSubsequence(existing: nat, s: Progress, plans: seq<Plan>) returns (at: seq<nat>)
    requires s.applied == []
    ensures Picks(plans, Run(existing, s, plans).applied, at)
    ensures Accounted(plans, Run(existing, s, plans).warnings, at)
  {
    if plans == [] {
      at := [];
      assert Picks(plans, [], at);
    } else {
      hide Step, Refusal, Accounted, Warned, Picks;
      var plan := plans[|plans| - 1];
      at := AppliedSubsequence(existing, s, plans[..|plans| - 1]);
      var here := Run(existing, s, plans[..|plans| - 1]);
      var next := Step(existing, here, plan);
      StepWarnings(existing, here, plan);
      StepApplied(existing, here, plan);
      PicksMore(plans, here.applied, at);
      if Refusal(existing, here, plan).None? {
        AccountApplied(plans, at, here.warnings, next.warnings);
        at := at + [|plans| - 1];
      } else {
        RefusedIsWarned(existing, here, plan);
        AccountSkipped(plans, at, here.warnings, next.warnings);
      }
    }
  }

  /* ---------- deferred prepend refines plan-by-plan insertion ---------- */

  /** The plan-by-plan view: init containers go straight into the pod, after the earlier ones. */
  datatype Eager = Eager(pod: PodState, inserted: nat, addedBytes: nat, applied: seq<Plan>)

  predicate EagerInv(e: Eager) { e.inserted <= |e.pod.initContainers| }

  function InsertInits(pod: PodState, at: nat, more: seq<Container>): PodState
    requires at <= |pod.initContainers|
  {
    pod.(initContainers := pod.initContainers[..at] + more + pod.initContainers[at..])
  }

  function EagerStep(existing: nat, e: Eager, plan: Plan): (r: Eager)
    requires EagerInv(e)
    ensures EagerInv(r)
  {
    if Refusal(existing, Fresh(e), plan).Some? then e
    else
      var targets := ResolveTargets(e.pod, plan).targets;
      Eager(InsertInits(InjectPlan(e.pod, plan, targets), e.inserted, HelperContainers(plan)),
            e.inserted + 2, e.addedBytes + RenderedBytes(plan), e.applied + [plan])
  }

  function EagerRun(existing: nat, e: Eager, plans: seq<Plan>): (r: Eager)
    requires EagerInv(e)
    ensures EagerInv(r)
  {
    if plans == [] then e
    else EagerStep(existing, EagerRun(existing, e, plans[..|plans| - 1]), plans[|plans| - 1])
  }

  function Flushed(s: Progress): Eager
  {
    Eager(s.pod.(initContainers := s.newInits + s.pod.initContainers), |s.newInits|, s.addedBytes, s.applied)
  }

  lemma FlushedInitTaken(s: Progress, name: string)
    ensures InitTaken(Flushed(s).pod, [], name) == InitTaken(s.pod, s.newInits, name)
  {
    var all := s.newInits + s.pod.initContainers;
    assert forall i :: 0 <= i < |s.newInits| ==> all[i] == s.newInits[i];
    assert forall i :: 0 <= i < |s.pod.initContainers| ==> all[|s.newInits| + i] == s.pod.initContainers[i];
  }

  lemma FlushedCollision(s: Progress, plan: Plan, targets: seq<string>)
    ensures CheckCollisions(Flushed(s).pod, plan, [], targets) == CheckCollisions(s.pod, plan, s.newInits, targets)
  {
    hide InitTaken, MountProblem;
    FlushedInitTaken(s, InitContainerName(plan.shimName));
    FlushedInitTaken(s, RefreshContainerName(plan.shimName));
  }

  lemma FlushedTargets(s: Progress, plan: Plan)
    ensures ResolveTargets(Flushed(s).pod, plan) == ResolveTargets(s.pod, plan)
  {
  }

  lemma VerdictsAgree(existing: nat, s: Progress, t: Progress, plan: Plan)
    requires s.addedBytes == t.addedBytes
    requires ResolveTargets(s.pod, plan) == ResolveTargets(t.pod, plan)
    requires var targets := ResolveTargets(s.pod, plan).targets;
             CheckCollisions(s.pod, plan, s.newInits, targets) == CheckCollisions(t.pod, plan, t.newInits, targets)
    ensures Refusal(existing, s, plan) == Refusal(existing, t, plan)
  {
    hide CheckCollisions, ResolveTargets;
  }

  function Fresh(e: Eager): Progress { Progress(e.pod, [], e.addedBytes, e.applied, []) }

  lemma FlushedRefusal(existing: nat, s: Progress, plan: Plan)
    ensures Refusal(existing, Fresh(Flushed(s)), plan) == Refusal(existing, s, plan)
  {
    FlushedTargets(s, plan);
    var t := ResolveTargets(s.pod, plan);
    FlushedCollision(s, plan, t.targets);
    VerdictsAgree(existing, s, Fresh(Flushed(s)), plan);
  }

  lemma FlushedInject(s: Progress, plan: Plan, targets: seq<string>)
    ensures InjectPlan(Flushed(s).pod, plan, targets)
            == InjectPlan(s.pod, plan, targets).(initContainers := s.newInits + s.pod.initContainers)
    ensures InjectPlan(s.pod, plan, targets).initContainers == s.pod.initContainers
  {
  }

  lemma FlushedStep(existing: nat, s: Progress, plan: Plan)
    ensures EagerStep(existing, Flushed(s), plan) == Flushed(Step(existing, s, plan))
  {
    hide Step, Refusal, InjectPlan, ResolveTargets, HelperContainer, RenderedBytes;
    var e := Flushed(s);
    FlushedRefusal(existing, s, plan);
    StepPod(existing, s, plan);
    StepQueue(existing, s, plan);
    StepBytes(existing, s, plan);
    StepApplied(existing, s, plan);
    FlushedTargets(s, plan);
    FlushedInject(s, plan, ResolveTargets(s.pod, plan).targets);
    var all := e.pod.initContainers;
    assert all[..|s.newInits|] == s.newInits && all[|s.newInits|..] == s.pod.initContainers;
  }

  /** Queuing init containers and prepending them once equals inserting them plan by plan. */
  lemma {:induction false} DeferredPrependRefines(existing: nat, s: Progress, plans: seq<Plan>)
    ensures EagerRun(existing, Flushed(s), plans) == Flushed(Run(existing, s, plans))
  {
    if plans != [] {
      DeferredPrependRefines(existing, s, plans[..|plans| - 1]);
      FlushedStep(existing, Run(existing, s, plans[..|plans| - 1]), plans[|plans| - 1]);
    }
  }
}
