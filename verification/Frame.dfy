/**
  What a call leaves alone and what it records: old content keeps its place, containers no
  applied plan names are untouched, and the bookkeeping can be decoded back into the applied
  shims.
 */
module Frame {
  import opened Text
  import opened Keys
  import opened Bytes
  import opened Pods
  import opened Injection
  import opened Greedy
  import opened Payload
  import opened Mounts

  /* ---------- untargeted containers ---------- */

  lemma {:induction false} NotHitUnchanged(cs: seq<Container>, plan: Plan, targets: seq<string>, j: nat)
    requires j < |cs| && Hits(cs, targets, j) == 0
    ensures InjectAll(cs, plan, targets)[j] == cs[j]
  {
    if targets != [] {
      hide InjectOne;
      NotHitUnchanged(cs, plan, targets[..|targets| - 1], j);
      InjectLast(cs, plan, targets, j);
    }
  }

  lemma {:induction false} UnnamedNotHit(cs: seq<Container>, targets: seq<string>, j: nat)
    requires j < |cs| && cs[j].name !in targets
    ensures Hits(cs, targets, j) == 0
  {
    if targets != [] {
      assert targets[|targets| - 1] in targets;
      UnnamedNotHit(cs, targets[..|targets| - 1], j);
    }
  }

  predicate NamedBy(pod: PodState, plans: seq<Plan>, name: string)
  {
    exists k :: 0 <= k < |plans| && name in ResolveTargets(pod, plans[k]).targets
  }

  lemma {:induction false} UntargetedUnchanged(existing: nat, pod: PodState, plans: seq<Plan>, j: nat)
    requires j < |pod.containers|
    requires !NamedBy(pod, Run(existing, Start(pod), plans).applied, pod.containers[j].name)
    ensures |Run(existing, Start(pod), plans).pod.containers| == |pod.containers|
    ensures Run(existing, Start(pod), plans).pod.containers[j] == pod.containers[j]
  {
    hide Step, Refusal, ResolveTargets, InjectAll, NewVolumes, WritePayload, Hits, AllGrown;
    if plans != [] {
      var front, plan := plans[..|plans| - 1], plans[|plans| - 1];
      var here, r := Run(existing, Start(pod), front), Run(existing, Start(pod), plans);
      StepPod(existing, here, plan);
      StepApplied(existing, here, plan);
      assert forall k :: 0 <= k < |here.applied| ==> here.applied[k] == r.applied[k];
      UntargetedUnchanged(existing, pod, front, j);
      if Refusal(existing, here, plan).None? {
        assert r.applied[|here.applied|] == plan;
        RunLater(existing, Start(pod), front, 0);
        assert front[..0] == [];
        TargetsKept(pod, here.pod, plan);
        var targets := ResolveTargets(here.pod, plan).targets;
        UnnamedNotHit(here.pod.containers, targets, j);
        NotHitUnchanged(here.pod.containers, plan, targets, j);
      }
    }
  }

  /* ---------- exact contents of lists ---------- */

  /** The variables the applied plans offer to the j-th container, in order. */
  function EnvOffered(pod: PodState, plans: seq<Plan>, j: nat): seq<EnvVar>
  {
    if plans == [] then []
    else
      var plan := plans[|plans| - 1];
      EnvOffered(pod, plans[..|plans| - 1], j)
      + (if Hits(pod.containers, ResolveTargets(pod, plan).targets, j) >= 1 then plan.env else [])
  }

  lemma {:induction false} EnvOfferedSnoc(pod: PodState, plans: seq<Plan>, plan: Plan, j: nat)
    ensures EnvOffered(pod, plans + [plan], j)
            == EnvOffered(pod, plans, j)
               + (if Hits(pod.containers, ResolveTargets(pod, plan).targets, j) >= 1 then plan.env else [])
  {
    hide ResolveTargets, Hits;
    assert (plans + [plan])[..|plans|] == plans;
  }

  lemma {:induction false} NothingOffered(pod: PodState, j: nat)
    ensures EnvOffered(pod, [], j) == []
  {
  }

  /** Adding variables: a name keeps its first definition, the container's own before the plan's. */
  lemma {:induction false} AddEnvLookup(env: seq<EnvVar>, more: seq<EnvVar>, name: string)
    ensures FindEnv(AddEnv(env, more), name) == FindEnv(env + more, name)
  {
    if more == [] {
      assert env + more == env;
    } else {
      var front, e := more[..|more| - 1], more[|more| - 1];
      var before := AddEnv(env, front);
      AddEnvLookup(env, front, name);
      AddEnvLookup(env, front, e.name);
      assert env + more == (env + front) + [e];
      FindEnvAppend(env + front, [e], name);
      FindEnvAppend(before, [e], name);
    }
  }

  lemma {:induction false} EnvAfterPlan(cs: seq<Container>, plan: Plan, targets: seq<string>, j: nat, name: string)
    requires j < |cs|
    ensures FindEnv(InjectAll(cs, plan, targets)[j].env, name)
            == FindEnv(cs[j].env + (if Hits(cs, targets, j) >= 1 then plan.env else []), name)
  {
    if targets == [] {
      assert cs[j].env + [] == cs[j].env;
    } else {
      var front := targets[..|targets| - 1];
      EnvAfterPlan(cs, plan, front, j, name);
      InjectLast(cs, plan, targets, j);
      hide InjectAll, PlanMounts, AddEnv;
      var before := InjectAll(cs, plan, front)[j].env;
      AddEnvLookup(before, plan.env, name);
      FindEnvAppend(before, plan.env, name);
      FindEnvAppend(cs[j].env, plan.env, name);
      assert cs[j].env + [] == cs[j].env;
    }
  }

  lemma {:induction false} EnvChain(own: seq<EnvVar>, a: seq<EnvVar>, b: seq<EnvVar>, now: seq<EnvVar>, name: string)
    requires FindEnv(now, name) == FindEnv(own + a, name)
    ensures FindEnv(now + b, name) == FindEnv(own + (a + b), name)
  {
    FindEnvAppend(now, b, name);
    FindEnvAppend(own + a, b, name);
    Associative(own, a, b);
  }

  /** Every variable's value after a run: the container's own, else the earliest applied plan's. */
  lemma {:induction false} RunEnvExact(existing: nat, pod: PodState, plans: seq<Plan>, j: nat, name: string)
    requires j < |pod.containers|
    ensures var r := Run(existing, Start(pod), plans);
            |r.pod.containers| == |pod.containers|
            && FindEnv(r.pod.containers[j].env, name)
               == FindEnv(pod.containers[j].env + EnvOffered(pod, r.applied, j), name)
  {
    hide Step, Refusal, ResolveTargets, InjectAll, NewVolumes, WritePayload, Hits, EnvOffered, FindEnv;
    if plans == [] {
      NothingOffered(pod, j);
      assert pod.containers[j].env + [] == pod.containers[j].env;
    } else {
      var front, plan := plans[..|plans| - 1], plans[|plans| - 1];
      var here := Run(existing, Start(pod), front);
      RunEnvExact(existing, pod, front, j, name);
      StepPod(existing, here, plan);
      StepApplied(existing, here, plan);
      SameHits(existing, pod, front, plan, j);
      if Refusal(existing, here, plan).None? {
        var targets := ResolveTargets(pod, plan).targets;
        EnvAfterPlan(here.pod.containers, plan, targets, j, name);
        EnvOfferedSnoc(pod, here.applied, plan, j);
        EnvChain(pod.containers[j].env, EnvOffered(pod, here.applied, j),
                 if Hits(pod.containers, targets, j) >= 1 then plan.env else [], here.pod.containers[j].env, name);
      }
    }
  }

  /** The volumes the applied plans add: the shared socket at most once, then two per plan. */
  function PairsOf(plans: seq<Plan>): seq<Volume>
  {
    if plans == [] then []
    else PairsOf(plans[..|plans| - 1]) + [TokenVolume(plans[|plans| - 1]), ConfigVolume(plans[|plans| - 1])]
  }

  function VolumesAdded(vs: seq<Volume>, applied: seq<Plan>): seq<Volume>
  {
    if applied == [] then []
    else (if FindVolume(vs, SOCKET_VOLUME_NAME).None? then [SocketVolume(applied[0])] else []) + PairsOf(applied)
  }

  lemma {:induction false} SocketThere(vs: seq<Volume>, applied: seq<Plan>)
    requires applied != []
    ensures FindVolume(vs + VolumesAdded(vs, applied), SOCKET_VOLUME_NAME).Some?
  {
    hide PairsOf;
    FindVolumeAppend(vs, VolumesAdded(vs, applied), SOCKET_VOLUME_NAME);
    if FindVolume(vs, SOCKET_VOLUME_NAME).None? {
      assert VolumesAdded(vs, applied)[0].name == SOCKET_VOLUME_NAME;
    }
  }

  lemma {:induction false} PairsSnoc(applied: seq<Plan>, plan: Plan)
    ensures PairsOf(applied + [plan]) == PairsOf(applied) + [TokenVolume(plan), ConfigVolume(plan)]
  {
    hide ConfigVolume, TokenVolume;
    assert (applied + [plan])[..|applied|] == applied;
  }

  lemma VolumesAddedSnoc(vs: seq<Volume>, applied: seq<Plan>, plan: Plan)
    ensures vs + VolumesAdded(vs, applied + [plan])
            == (vs + VolumesAdded(vs, applied)) + NewVolumes(vs + VolumesAdded(vs, applied), plan)
  {
    PairsSnoc(applied, plan);
    hide ConfigVolume, TokenVolume, SocketVolume;
    var pair := [TokenVolume(plan), ConfigVolume(plan)];
    if applied == [] {
      assert PairsOf(applied) + pair == pair;
      hide PairsOf;
      assert vs + VolumesAdded(vs, applied) == vs;
      assert (applied + [plan])[0] == plan;
    } else {
      SocketThere(vs, applied);
      hide PairsOf, FindVolume;
      assert (applied + [plan])[0] == applied[0];
      var socket := if FindVolume(vs, SOCKET_VOLUME_NAME).None? then [SocketVolume(applied[0])] else [];
      Associative(socket, PairsOf(applied), pair);
      Associative(vs, VolumesAdded(vs, applied), pair);
      assert [] + pair == pair;
    }
  }

  /** The exact volume list after a run; the socket volume is added once however many plans apply. */
  lemma {:induction false} RunVolumesExact(existing: nat, s: Progress, plans: seq<Plan>)
    requires s.applied == []
    ensures Run(existing, s, plans).pod.volumes
            == s.pod.volumes + VolumesAdded(s.pod.volumes, Run(existing, s, plans).applied)
  {
    hide Step, Refusal, ResolveTargets, InjectAll, NewVolumes, WritePayload, PairsOf;
    if plans != [] {
      var here, plan := Run(existing, s, plans[..|plans| - 1]), plans[|plans| - 1];
      RunVolumesExact(existing, s, plans[..|plans| - 1]);
      StepPod(existing, here, plan);
      StepApplied(existing, here, plan);
      VolumesAddedSnoc(s.pod.volumes, here.applied, plan);
    }
  }

  /* ---------- labels ---------- */

  function LabelValue(plan: Plan): string { if plan.clusterScoped then LABEL_CLUSTER else LABEL_NAMESPACED }

  function Labels(plans: seq<Plan>): map<string, string>
  {
    if plans == [] then map[]
    else Labels(plans[..|plans| - 1])[ShimLabelKey(plans[|plans| - 1].shimName) := LabelValue(plans[|plans| - 1])]
  }

  lemma NoLabels(m: map<string, string>)
    ensures m + Labels([]) == m
  {
  }

  lemma {:induction false} LabelsSnoc(m: map<string, string>, plans: seq<Plan>, plan: Plan)
    ensures m + Labels(plans + [plan]) == (m + Labels(plans))[ShimLabelKey(plan.shimName) := LabelValue(plan)]
  {
    hide ShimLabelKey, LabelValue;
    assert (plans + [plan])[..|plans|] == plans;
  }

  lemma {:induction false} RunLabels(existing: nat, s: Progress, plans: seq<Plan>)
    requires s.applied == []
    ensures Run(existing, s, plans).pod.labels == s.pod.labels + Labels(Run(existing, s, plans).applied)
  {
    hide Step, Refusal, ResolveTargets, InjectAll, NewVolumes, WritePayload, ShimLabelKey, Labels;
    if plans == [] {
      NoLabels(s.pod.labels);
    } else {
      var here, plan := Run(existing, s, plans[..|plans| - 1]), plans[|plans| - 1];
      RunLabels(existing, s, plans[..|plans| - 1]);
      StepPod(existing, here, plan);
      StepApplied(existing, here, plan);
      LabelsSnoc(s.pod.labels, here.applied, plan);
    }
  }

  /** The pod carries the label of that shim name with that value. */
  predicate Carries(labels: map<string, string>, name: string, value: string)
  {
    ShimLabelKey(name) in labels && labels[ShimLabelKey(name)] == value
  }

  predicate AppliedNamed(plans: seq<Plan>, name: string)
  {
    exists k :: 0 <= k < |plans| && plans[k].shimName == name
  }

  predicate AppliedAs(plans: seq<Plan>, name: string, value: string)
  {
    exists k :: 0 <= k < |plans| && plans[k].shimName == name && LabelValue(plans[k]) == value
  }

  lemma {:induction false} LabelsExact(plans: seq<Plan>, name: string, value: string)
    requires DistinctShims(plans)
    ensures ShimLabelKey(name) in Labels(plans) <==> AppliedNamed(plans, name)
    ensures Carries(Labels(plans), name, value) <==> AppliedAs(plans, name, value)
  {
    if plans != [] {
      var n := |plans| - 1;
      var front, last := plans[..n], plans[n];
      LabelsExact(front, name, value);
      PrefixCancel(SHIM_LABEL_PREFIX, name, last.shimName);
      hide ShimLabelKey, LabelValue;
      assert forall k :: 0 <= k < n ==> front[k] == plans[k] && plans[k].shimName != last.shimName;
      assert Labels(plans) == Labels(front)[ShimLabelKey(last.shimName) := LabelValue(last)];
      assert AppliedNamed(plans, name) <==> AppliedNamed(front, name) || last.shimName == name;
      assert AppliedAs(plans, name, value)
             <==> AppliedAs(front, name, value) || (last.shimName == name && LabelValue(last) == value);
      if last.shimName == name {
        assert !AppliedNamed(front, name);
      }
    }
  }

  /* ---------- the whole call ---------- */

  /**
    Old volumes, mounts and variables stay a prefix and old init containers a suffix; the new
    init containers are init then refresh for each applied plan in order; containers named by no
    applied plan are unchanged; and labels are set for the applied shims and nobody else.
   */
  lemma ApplyFrame(pod: PodState, plans: seq<Plan>)
    ensures var out := Apply(pod, plans);
            && pod.volumes <= out.pod.volumes
            && AllGrown(pod.containers, out.pod.containers)
            && out.pod.initContainers == Helpers(out.applied) + pod.initContainers
            && (forall j :: 0 <= j < |pod.containers| && !NamedBy(pod, out.applied, pod.containers[j].name) ==>
                  out.pod.containers[j] == pod.containers[j])
            && out.pod.labels == pod.labels + Labels(out.applied)
            && (out.applied == [] ==> out.pod == pod)
  {
    hide Run, NamedBy, Helpers, Labels, ShimLabelKey, MapBytes, DistinctShims, Grown;
    NoShimsDistinct();
    assert Helpers([]) == [];
    var out := Apply(pod, plans);
    NoLabels(pod.labels);
    if Injected(pod) {
      GrownReflexive(pod.containers);
    } else {
      var existing, s := MapBytes(pod.annotations), Start(pod);
      RunLater(existing, s, plans, 0);
      EmptyRun(existing, s);
      assert plans[..0] == [];
      QueueIsHelpers(existing, s, plans);
      RunLabels(existing, s, plans);
      forall j | 0 <= j < |pod.containers| && !NamedBy(pod, out.applied, pod.containers[j].name)
        ensures out.pod.containers[j] == pod.containers[j]
      {
        UntargetedUnchanged(existing, pod, plans, j);
      }
      NothingAppliedNothingChanged(existing, s, plans);
    }
  }

  /**
    A pod carries a shim's label with its kind's value exactly when that shim was applied, or when
    it carried it before and no shim of that name was applied.
   */
  lemma LabelExact(pod: PodState, plans: seq<Plan>, name: string, value: string)
    ensures var out := Apply(pod, plans);
            Carries(out.pod.labels, name, value)
            <==> AppliedAs(out.applied, name, value)
                 || (Carries(pod.labels, name, value) && !AppliedNamed(out.applied, name))
  {
    ApplyFrame(pod, plans);
    AppliedDistinct(pod, plans);
    hide Apply, Labels, ShimLabelKey, LabelValue;
    LabelsExact(Apply(pod, plans).applied, name, value);
    if AppliedAs(Apply(pod, plans).applied, name, value) {
      assert AppliedNamed(Apply(pod, plans).applied, name);
    }
  }

  lemma AppliedDistinct(pod: PodState, plans: seq<Plan>)
    ensures DistinctShims(Apply(pod, plans).applied)
  {
    NoShimsDistinct();
    if Apply(pod, plans).applied != [] {
      ApplyAnnotations(pod, plans);
    }
  }

  /**
    The whole call, exactly: which volumes, which mounts in which container, and which value each
    variable has.  Nothing else is added and nothing is lost.
   */
  lemma {:induction false} ApplyExact(pod: PodState, plans: seq<Plan>, j: nat, name: string)
    requires j < |pod.containers|
    ensures var out := Apply(pod, plans);
            && out.pod.volumes == pod.volumes + VolumesAdded(pod.volumes, out.applied)
            && |out.pod.containers| == |pod.containers|
            && out.pod.containers[j].mounts == pod.containers[j].mounts + MountsAdded(pod, out.applied, j)
            && FindEnv(out.pod.containers[j].env, name)
               == FindEnv(pod.containers[j].env + EnvOffered(pod, out.applied, j), name)
  {
    hide Run, MapBytes, VolumesAdded, FindEnv, MountsAdded, EnvOffered;
    if Injected(pod) {
      NothingOffered(pod, j);
      NothingAdded(pod, j);
      NoVolumes(pod.volumes);
      assert pod.containers[j].env + [] == pod.containers[j].env;
    } else {
      RunVolumesExact(MapBytes(pod.annotations), Start(pod), plans);
      RunMountsExact(MapBytes(pod.annotations), pod, plans, j);
      RunEnvExact(MapBytes(pod.annotations), pod, plans, j, name);
    }
  }

  lemma NoVolumes(vs: seq<Volume>)
    ensures vs + VolumesAdded(vs, []) == vs
  {
  }

  lemma GrownReflexive(cs: seq<Container>)
    ensures AllGrown(cs, cs)
  {
  }

  lemma {:induction false} EmptyRun(existing: nat, s: Progress)
    ensures Run(existing, s, []) == s
  {
  }

  lemma {:induction false} NothingAppliedNothingChanged(existing: nat, s: Progress, plans: seq<Plan>)
    requires s.applied == []
    ensures Run(existing, s, plans).applied == [] ==> Run(existing, s, plans).pod == s.pod
  {
    hide Step, Refusal, InjectPlan, ResolveTargets;
    if plans != [] {
      var here, plan := Run(existing, s, plans[..|plans| - 1]), plans[|plans| - 1];
      NothingAppliedNothingChanged(existing, s, plans[..|plans| - 1]);
      StepPod(existing, here, plan);
      StepApplied(existing, here, plan);
    }
  }

  /* ---------- decoding the bookkeeping ---------- */

  function Ids(ids: seq<ShimId>): (keys: seq<string>)
    ensures |keys| == |ids| && forall k :: 0 <= k < |ids| ==> keys[k] == ShimKey(ids[k])
  {
    seq(|ids|, k requires 0 <= k < |ids| => ShimKey(ids[k]))
  }

  /** Equal lists of shim keys name equal lists of shims. */
  lemma IdsInjective(a: seq<ShimId>, b: seq<ShimId>)
    requires forall k :: 0 <= k < |a| ==> WellNamed(a[k])
    requires forall k :: 0 <= k < |b| ==> WellNamed(b[k])
    requires Ids(a) == Ids(b)
    ensures a == b
  {
    assert |a| == |Ids(a)| == |b|;
    hide ShimKey, WellNamed;
    forall k | 0 <= k < |a| ensures a[k] == b[k] {
      assert ShimKey(a[k]) == Ids(a)[k] == Ids(b)[k] == ShimKey(b[k]);
      ShimKeyInjective(a[k], b[k]);
    }
  }

  /** The `shims` annotation parses back to the keys of exactly the applied plans, in order. */
  lemma ShimsAnnotationDecodes(pod: PodState, plans: seq<Plan>, ids: seq<ShimId>)
    requires Apply(pod, plans).applied != []
    requires ShimKeys(Apply(pod, plans).applied) == Ids(ids)
    requires forall k :: 0 <= k < |ids| ==> WellNamed(ids[k])
    ensures Injected(Apply(pod, plans).pod)
    ensures SHIMS_ANNOTATION in Apply(pod, plans).pod.annotations
    ensures CommaNames(Apply(pod, plans).pod.annotations[SHIMS_ANNOTATION]) == Ids(ids)
  {
    hide Run, MapBytes, CommaNames, WellNamed, ShimKey, Join;
    BookkeepingKeysApart();
    var names := Ids(ids);
    forall k | 0 <= k < |names| ensures CommaSafe(names[k]) {
      ShimKeyCommaSafe(ids[k]);
    }
    CommaListRoundTrip(names);
  }
}
