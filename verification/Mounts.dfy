/**
  Exactly which mounts a container ends up with: its own, then those of every applied plan once
  per target that names it.
 */
module Mounts {
  import opened Text
  import opened Keys
  import opened Pods
  import opened Injection
  import opened Greedy

  /* ---------- one accepted plan ---------- */

  /** Injection keeps names, so every lookup can be done on the containers as they were. */
  lemma {:induction false} InjectLast(cs: seq<Container>, plan: Plan, targets: seq<string>, j: nat)
    requires targets != [] && j < |cs|
    ensures var before := InjectAll(cs, plan, targets[..|targets| - 1])[j];
            InjectAll(cs, plan, targets)[j]
            == if FindContainer(cs, targets[|targets| - 1]) == Some(j) then InjectOne(before, plan) else before
  {
    hide PlanMounts, AddEnv, AllGrown;
    var before := InjectAll(cs, plan, targets[..|targets| - 1]);
    InjectAllGrows(cs, plan, targets[..|targets| - 1]);
    NamesKept(cs, before);
    FindContainerByNames(cs, before, targets[|targets| - 1]);
  }

  /** How many targets resolve to the j-th container. */
  function Hits(cs: seq<Container>, targets: seq<string>, j: nat): nat
  {
    if targets == [] then 0
    else Hits(cs, targets[..|targets| - 1], j)
         + (if FindContainer(cs, targets[|targets| - 1]) == Some(j) then 1 else 0)
  }

  function Repeat<T>(s: seq<T>, n: nat): seq<T>
  {
    if n == 0 then [] else Repeat(s, n - 1) + s
  }

  /** The exact mounts of every container: its own, then the plan's once per target naming it. */
  lemma {:induction false} MountsExact(cs: seq<Container>, plan: Plan, targets: seq<string>, j: nat)
    requires j < |cs|
    ensures InjectAll(cs, plan, targets)[j].mounts
            == cs[j].mounts + Repeat(PlanMounts(plan, |plan.files|), Hits(cs, targets, j))
  {
    hide PlanMounts, AddEnv;
    if targets != [] {
      var front := targets[..|targets| - 1];
      MountsExact(cs, plan, front, j);
      InjectLast(cs, plan, targets, j);
      hide InjectAll;
      var once := PlanMounts(plan, |plan.files|);
      Associative(cs[j].mounts, Repeat(once, Hits(cs, front, j)), once);
    }
  }

  lemma {:induction false} HitByTarget(cs: seq<Container>, targets: seq<string>, t: nat, j: nat)
    requires t < |targets| && FindContainer(cs, targets[t]) == Some(j)
    ensures Hits(cs, targets, j) >= 1
  {
    if t < |targets| - 1 {
      HitByTarget(cs, targets[..|targets| - 1], t, j);
    }
  }

  lemma {:induction false} RepeatStarts<T>(s: seq<T>, n: nat)
    requires n >= 1
    ensures s <= Repeat(s, n)
  {
    if n == 1 {
      assert Repeat(s, 0) + s == s;
    } else {
      RepeatStarts(s, n - 1);
    }
  }

  /** Every container a target names ends with the plan's mounts right after its own. */
  lemma {:induction false} TargetGetsMounts(cs: seq<Container>, plan: Plan, targets: seq<string>, t: nat)
    requires t < |targets| && FindContainer(cs, targets[t]).Some?
    ensures var j := FindContainer(cs, targets[t]).value;
            cs[j].mounts + PlanMounts(plan, |plan.files|) <= InjectAll(cs, plan, targets)[j].mounts
  {
    hide PlanMounts, InjectAll, Hits, Repeat;
    var j := FindContainer(cs, targets[t]).value;
    MountsExact(cs, plan, targets, j);
    HitByTarget(cs, targets, t, j);
    RepeatStarts(PlanMounts(plan, |plan.files|), Hits(cs, targets, j));
  }

  lemma {:induction false} HitIsTarget(cs: seq<Container>, targets: seq<string>, j: nat) returns (t: nat)
    requires Hits(cs, targets, j) >= 1
    ensures t < |targets| && FindContainer(cs, targets[t]) == Some(j)
  {
    var n := |targets| - 1;
    if FindContainer(cs, targets[n]) == Some(j) {
      t := n;
    } else {
      t := HitIsTarget(cs, targets[..n], j);
    }
  }

  lemma {:induction false} PlanMountTargets(plan: Plan)
    ensures MountTargets(PlanMounts(plan, |plan.files|)) == MountPaths(plan)
  {
    hide ConfigVolumeName, FilesSubPath;
    var ms := PlanMounts(plan, |plan.files|);
    forall p | 0 <= p < |ms| ensures MountTargets(ms)[p] == MountPaths(plan)[p] {
      if p > 0 {
        assert ms[p] == FileMount(plan, p - 1);
      }
    }
  }

  /* ---------- a whole run ---------- */

  /** What the applied plans mount into the j-th container, in order. */
  function MountsAdded(pod: PodState, plans: seq<Plan>, j: nat): seq<VolumeMount>
  {
    if plans == [] then []
    else
      var plan := plans[|plans| - 1];
      MountsAdded(pod, plans[..|plans| - 1], j)
      + Repeat(PlanMounts(plan, |plan.files|), Hits(pod.containers, ResolveTargets(pod, plan).targets, j))
  }

  lemma {:induction false} HitsByNames(cs: seq<Container>, ds: seq<Container>, targets: seq<string>, j: nat)
    requires ContainerNames(cs) == ContainerNames(ds)
    ensures Hits(cs, targets, j) == Hits(ds, targets, j)
  {
    if targets != [] {
      HitsByNames(cs, ds, targets[..|targets| - 1], j);
      FindContainerByNames(cs, ds, targets[|targets| - 1]);
    }
  }

  /** A plan accepted later sees the targets, and hits the containers, of the original pod. */
  lemma {:induction false} SameHits(existing: nat, pod: PodState, plans: seq<Plan>, plan: Plan, j: nat)
    ensures var here := Run(existing, Start(pod), plans).pod;
            && |here.containers| == |pod.containers|
            && ResolveTargets(here, plan) == ResolveTargets(pod, plan)
            && Hits(here.containers, ResolveTargets(pod, plan).targets, j)
               == Hits(pod.containers, ResolveTargets(pod, plan).targets, j)
  {
    hide Step, ResolveTargets, Hits;
    var here := Run(existing, Start(pod), plans).pod;
    RunLater(existing, Start(pod), plans, 0);
    assert plans[..0] == [];
    TargetsKept(pod, here, plan);
    NamesKept(pod.containers, here.containers);
    HitsByNames(pod.containers, here.containers, ResolveTargets(pod, plan).targets, j);
  }

  lemma {:induction false} MountsAddedSnoc(pod: PodState, plans: seq<Plan>, plan: Plan, j: nat)
    ensures MountsAdded(pod, plans + [plan], j)
            == MountsAdded(pod, plans, j)
               + Repeat(PlanMounts(plan, |plan.files|), Hits(pod.containers, ResolveTargets(pod, plan).targets, j))
  {
    hide ResolveTargets, Hits, Repeat, PlanMounts;
    assert (plans + [plan])[..|plans|] == plans;
  }

  lemma {:induction false} NothingAdded(pod: PodState, j: nat)
    ensures MountsAdded(pod, [], j) == []
  {
  }

  /** The mounts of every container after a run: its own, then each applied plan's, in order. */
  lemma {:induction false} RunMountsExact(existing: nat, pod: PodState, plans: seq<Plan>, j: nat)
    requires j < |pod.containers|
    ensures var r := Run(existing, Start(pod), plans);
            |r.pod.containers| == |pod.containers|
            && r.pod.containers[j].mounts == pod.containers[j].mounts + MountsAdded(pod, r.applied, j)
  {
    hide Step, Refusal, ResolveTargets, InjectAll, NewVolumes, WritePayload, Hits, Repeat, PlanMounts, MountsAdded;
    if plans == [] {
      assert MountsAdded(pod, [], j) == [] by { NothingAdded(pod, j); }
    } else {
      var front, plan := plans[..|plans| - 1], plans[|plans| - 1];
      var here := Run(existing, Start(pod), front);
      RunMountsExact(existing, pod, front, j);
      StepPod(existing, here, plan);
      StepApplied(existing, here, plan);
      SameHits(existing, pod, front, plan, j);
      if Refusal(existing, here, plan).None? {
        var targets := ResolveTargets(pod, plan).targets;
        MountsExact(here.pod.containers, plan, targets, j);
        MountsAddedSnoc(pod, here.applied, plan, j);
        Associative(pod.containers[j].mounts, MountsAdded(pod, here.applied, j),
                    Repeat(PlanMounts(plan, |plan.files|), Hits(pod.containers, targets, j)));
      }
    }
  }

  lemma {:induction false} InRepeat<T>(s: seq<T>, n: nat, x: T)
    ensures x in Repeat(s, n) <==> n >= 1 && x in s
  {
    if n > 0 {
      InRepeat(s, n - 1, x);
    }
  }

  /** Some applied plan that reaches the j-th container mounts this. */
  ghost predicate MountedBy(pod: PodState, plans: seq<Plan>, j: nat, m: VolumeMount)
  {
    exists l :: 0 <= l < |plans| && Reaches(pod, plans[l], j) && m in PlanMounts(plans[l], |plans[l].files|)
  }

  /** The plan is injected into the j-th container. */
  predicate Reaches(pod: PodState, plan: Plan, j: nat)
  {
    Hits(pod.containers, ResolveTargets(pod, plan).targets, j) >= 1
  }

  lemma {:induction false} AddedExactly(pod: PodState, plans: seq<Plan>, j: nat, m: VolumeMount)
    ensures m in MountsAdded(pod, plans, j) <==> MountedBy(pod, plans, j, m)
  {
    hide ResolveTargets, Hits, Repeat, PlanMounts;
    if plans != [] {
      var n := |plans| - 1;
      AddedExactly(pod, plans[..n], j, m);
      var last, ms := plans[n], PlanMounts(plans[n], |plans[n].files|);
      InRepeat(ms, Hits(pod.containers, ResolveTargets(pod, last).targets, j), m);
      assert MountedBy(pod, plans, j, m)
             <==> MountedBy(pod, plans[..n], j, m) || (Reaches(pod, last, j) && m in ms) by {
        assert forall l :: 0 <= l < n ==> plans[..n][l] == plans[l];
      }
    }
  }

  /** The mounts of a finished container, as a set. */
  lemma {:induction false} MountMembers(existing: nat, pod: PodState, plans: seq<Plan>, j: nat, m: VolumeMount)
    requires j < |pod.containers|
    ensures var r := Run(existing, Start(pod), plans);
            && |r.pod.containers| == |pod.containers|
            && (m in r.pod.containers[j].mounts <==> m in pod.containers[j].mounts || MountedBy(pod, r.applied, j, m))
  {
    hide Run, MountedBy;
    RunMountsExact(existing, pod, plans, j);
    AddedExactly(pod, Run(existing, Start(pod), plans).applied, j, m);
  }
}
