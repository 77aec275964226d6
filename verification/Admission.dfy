/**
  What one admission request guarantees about the pod it returns: delivery, admissibility and the
  record of applied shims, and which invalid shims are injected all the same.
 */
module Admission {
  import opened Text
  import opened Keys
  import opened Bytes
  import opened Pods
  import opened Params
  import opened Specs
  import opened Selection
  import opened Plans
  import opened Validation
  import opened Delivery
  import opened Frame
  import opened Uniqueness
  import opened Listing
  import opened Handler
  import opened Precedence
  import Injection

  /* ---------- the engine's guarantees, for every admitted pod ---------- */

  lemma AppliedWerePlanned(pod: PodState, plans: seq<Plan>, k: nat)
    requires k < |Injection.Apply(pod, plans).applied|
    ensures Injection.Apply(pod, plans).applied[k] in plans
  {
    hide Injection.Run, MapBytes;
    var n := AcceptedAt(MapBytes(pod.annotations), Injection.Start(pod), plans, k);
  }

  lemma AppliedPathsDistinct(w: World, req: Request, pod: PodState)
    requires Considered(w, req, pod)
    ensures AllPathsDistinct(Injection.Apply(pod, PlansFor(w, NamespaceOf(req, pod), pod).value.plans).applied)
  {
    hide Injection.Apply, BuildPlans, ListShims, PathsDistinct, OptedOut;
    var ns := NamespaceOf(req, pod);
    var list := PlansFor(w, ns, pod).value;
    PlansWellFormed(w, ns, pod.serviceAccountName, TargetOf(w, ns, pod),
                    ListShims(w.oidcShims(ns).value, w.clusterShims.value));
    var applied := Injection.Apply(pod, list.plans).applied;
    forall k | 0 <= k < |applied| ensures PathsDistinct(applied[k]) {
      AppliedWerePlanned(pod, list.plans, k);
    }
  }

  /**
    Every pod that is admitted with a patch delivers every file of every applied shim to every
    targeted container, exactly unless the shim's token volume shadows its own config volume or
    something mounted into the container blocks the file.
   */
  lemma AdmittedPodsDeliver(w: World, req: Request, pod: PodState, k: nat, t: nat, i: nat)
    requires Handle(w, req, pod).response.Patched? && k < |Handle(w, req, pod).response.applied|
    requires var plan := Handle(w, req, pod).response.applied[k];
             t < |Injection.ResolveTargets(pod, plan).targets| && i < |plan.files|
    ensures var h := Handle(w, req, pod);
            var plan := h.response.applied[k];
            var j := TargetIndex(pod, plan, t);
            && |h.pod.containers| == |pod.containers|
            && ReadMounted(h.pod, h.pod.containers[j], plan.files[i].path, "")
               == if ShadowsConfig(plan) || Blocked(pod, h.response.applied, j, Injection.FileMount(plan, i), "")
                  then None else Some(plan.files[i].content)
  {
    hide Injection.Apply, PlansFor, OptedOut, Injection.ResolveTargets, ReadMounted, PathsDistinct, ShadowsConfig,
         Blocked, Injection.FileMount;
    AppliedPathsDistinct(w, req, pod);
    var plans := PlansFor(w, NamespaceOf(req, pod), pod).value.plans;
    assert PathsDistinct(Injection.Apply(pod, plans).applied[k]);
    FilesDelivered(pod, plans, k, t, i);
  }

  /** The same for tokens: they reach the app, from both helpers, exactly when nothing is in the way. */
  lemma AdmittedPodsGetTokens(w: World, req: Request, pod: PodState, k: nat, t: nat, sidecar: bool)
    requires Handle(w, req, pod).response.Patched? && k < |Handle(w, req, pod).response.applied|
    requires t < |Injection.ResolveTargets(pod, Handle(w, req, pod).response.applied[k]).targets|
    ensures var h := Handle(w, req, pod);
            var plan, at := h.response.applied[k], if sidecar then 2 * k + 1 else 2 * k;
            var j := TargetIndex(pod, plan, t);
            && |h.pod.containers| == |pod.containers| && at < |h.pod.initContainers|
            && (TokenReaches(h.pod, h.pod.containers[j], h.pod.initContainers[at], plan)
                <==> TokenUnobstructed(plan)
                     && !Blocked(pod, h.response.applied, j, TokenMount(plan), plan.token.fileName))
  {
    hide Injection.Apply, PlansFor, OptedOut, Injection.ResolveTargets, TokenReaches, TokenUnobstructed, Blocked,
         TokenMount;
    TokenDelivered(pod, PlansFor(w, NamespaceOf(req, pod), pod).value.plans, k, t, sidecar);
  }

  /** And both helpers of every applied shim find the agent's socket, exactly when nothing is in the way. */
  lemma AdmittedHelpersFindSocket(w: World, req: Request, pod: PodState, k: nat, sidecar: bool)
    requires Handle(w, req, pod).response.Patched? && k < |Handle(w, req, pod).response.applied|
    ensures var h := Handle(w, req, pod);
            var plan, at := h.response.applied[k], if sidecar then 2 * k + 1 else 2 * k;
            && at < |h.pod.initContainers|
            && (SocketReached(h.pod, h.pod.initContainers[at], plan) <==> SocketUnobstructed(plan))
  {
    hide Injection.Apply, PlansFor, OptedOut, SocketReached, SocketUnobstructed;
    SocketDelivered(pod, PlansFor(w, NamespaceOf(req, pod), pod).value.plans, k, sidecar);
  }

  /** The selection by which the controller counts a shim's pods: its label, and its own namespace. */
  predicate CountedFor(id: ShimId, namespace: string, labels: map<string, string>)
  {
    && Carries(labels, id.name, if id.ClusterWide? then LABEL_CLUSTER else LABEL_NAMESPACED)
    && (id.Namespaced? ==> namespace == id.namespace)
  }

  /**
    The controller counts exactly the pods a shim was injected into: after a request a pod that
    was not counted for a shim is counted for it if and only if a plan of its name and kind was
    applied, in its namespace when it has one.
   */
  lemma CountedExactly(w: World, req: Request, pod: PodState, id: ShimId)
    requires !CountedFor(id, NamespaceOf(req, pod), pod.labels)
    ensures var h := Handle(w, req, pod);
            CountedFor(id, NamespaceOf(req, pod), h.pod.labels)
            <==> && (id.Namespaced? ==> NamespaceOf(req, pod) == id.namespace)
                 && exists k :: 0 <= k < |AppliedIn(h.response)|
                                && AppliedIn(h.response)[k].shimName == id.name
                                && AppliedIn(h.response)[k].clusterScoped == id.ClusterWide?
  {
    var value := if id.ClusterWide? then LABEL_CLUSTER else LABEL_NAMESPACED;
    HandleEffect(w, req, pod);
    hide PlansFor, OptedOut, Carries, Injection.Apply;
    if Considered(w, req, pod) {
      var plans := PlansFor(w, NamespaceOf(req, pod), pod).value.plans;
      LabelExact(pod, plans, id.name, value);
      AppliedOfKind(Injection.Apply(pod, plans).applied, id);
      assert AppliedIn(Handle(w, req, pod).response) == Injection.Apply(pod, plans).applied;
    } else {
      assert AppliedIn(Handle(w, req, pod).response) == [];
    }
  }

  lemma AppliedOfKind(applied: seq<Plan>, id: ShimId)
    ensures AppliedAs(applied, id.name, if id.ClusterWide? then LABEL_CLUSTER else LABEL_NAMESPACED)
            <==> exists k :: 0 <= k < |applied| && applied[k].shimName == id.name
                             && applied[k].clusterScoped == id.ClusterWide?
  {
    assert LABEL_CLUSTER[0] != LABEL_NAMESPACED[0];
  }

  /** And it stays admissible exactly under the conditions the code leaves to its users. */
  lemma AdmittedPodsAdmissible(w: World, req: Request, pod: PodState)
    requires Admissible(pod) && Handle(w, req, pod).response.Patched?
    ensures var h := Handle(w, req, pod);
            Admissible(h.pod) <==> Considerate(pod, h.response.applied)
  {
    hide Injection.Apply, PlansFor, AllPathsDistinct, Admissible, Considerate, OptedOut;
    AppliedPathsDistinct(w, req, pod);
    InjectionKeepsAdmissible(pod, PlansFor(w, NamespaceOf(req, pod), pod).value.plans);
  }

  lemma {:induction false} AppliedIds(w: World, namespace: string, serviceAccount: string, t: Target, shims: seq<Shim>,
                                      applied: seq<Plan>) returns (ids: seq<ShimId>)
    requires forall k :: 0 <= k < |applied| ==> FromShims(w, namespace, serviceAccount, t, shims, applied[k])
    ensures |ids| == |applied| && Injection.ShimKeys(applied) == Ids(ids)
    ensures forall k :: 0 <= k < |ids| ==> Names(shims, ids[k]) && ids[k].name == applied[k].shimName
  {
    hide FromShims, Names, ShimKey;
    if applied == [] {
      ids := [];
    } else {
      var n := |applied| - 1;
      assert forall k :: 0 <= k < n ==> applied[..n][k] == applied[k];
      var before := AppliedIds(w, namespace, serviceAccount, t, shims, applied[..n]);
      var id := PlanNamesShim(w, namespace, serviceAccount, t, shims, applied[n]);
      ids := before + [id];
      forall k | 0 <= k < |applied| ensures Injection.ShimKeys(applied)[k] == Ids(ids)[k] {
        if k < n {
          assert Injection.ShimKeys(applied[..n])[k] == Ids(before)[k];
        }
      }
    }
  }

  /**
    The record on an admitted pod is exact: it is marked as injected, and its `shims` annotation
    parses back to the identities of the applied shims, in order, all of them listed shims.
   */
  lemma AdmittedPodsRecordShims(w: World, req: Request, pod: PodState) returns (ids: seq<ShimId>)
    requires Handle(w, req, pod).response.Patched?
    requires var ns := NamespaceOf(req, pod);
             w.oidcShims(ns).Some? && w.clusterShims.Some? &&
             forall shim :: shim in ListShims(w.oidcShims(ns).value, w.clusterShims.value) ==> WellNamed(shim.id)
    ensures var h, ns := Handle(w, req, pod), NamespaceOf(req, pod);
            && Injection.Injected(h.pod) && SHIMS_ANNOTATION in h.pod.annotations
            && CommaNames(h.pod.annotations[SHIMS_ANNOTATION]) == Ids(ids)
            && |ids| == |h.response.applied|
            && forall k :: 0 <= k < |ids| ==>
                 Names(ListShims(w.oidcShims(ns).value, w.clusterShims.value), ids[k])
                 && ids[k].name == h.response.applied[k].shimName
  {
    hide Injection.Apply, BuildPlans, ListShims, PathsDistinct, OptedOut, FromShims, WellNamed, CommaNames, ShimKey;
    var ns := NamespaceOf(req, pod);
    var shims := ListShims(w.oidcShims(ns).value, w.clusterShims.value);
    var t := TargetOf(w, ns, pod);
    var list := PlansFor(w, ns, pod).value;
    var applied := Injection.Apply(pod, list.plans).applied;
    PlansWellFormed(w, ns, pod.serviceAccountName, t, shims);
    forall k | 0 <= k < |applied| ensures FromShims(w, ns, pod.serviceAccountName, t, shims, applied[k]) {
      AppliedWerePlanned(pod, list.plans, k);
    }
    ids := AppliedIds(w, ns, pod.serviceAccountName, t, shims, applied);
    ShimsAnnotationDecodes(pod, list.plans, ids);
  }

  /* ---------- readiness is not consulted ---------- */

  /** The rules of the validator that nothing at admission enforces. */
  predicate BreaksLaxRule(spec: ShimSpec, name: string)
  {
    || |name| > MAX_SHIM_NAME_LENGTH
    || !Valid(spec.parameters)
    || !PullPolicyOk(spec.helper)
    || !AllReferOnlyTo(TemplatedFields(spec), Known(spec))
    || !ModesMatch(spec.inject.files)
  }

  lemma PlannedExact(shim: Shim, inp: Input, d: Defaults)
    ensures PlanFrom(shim, inp, d).Planned?
            <==> Resolve(inp).Ok? && Buildable(shim, Resolve(inp).value, ResolveToken(shim.id.name, shim.spec.token), d)
  {
    hide Resolve, Build, Buildable, ResolveToken;
    if Resolve(inp).Ok? {
      BuildExact(shim, Resolve(inp).value, ResolveToken(shim.id.name, shim.spec.token), d);
    }
  }

  /**
    Exactly which shims the controller reports as invalid are planned all the same: those that
    match, resolve and build, and break one of the five rules admission does not know.  The other
    three rules, on selectors, token mode and file paths, are enforced again.
   */
  lemma RejectedYetPlanned(w: World, namespace: string, serviceAccount: string, t: Target, shim: Shim, acc: PlanList)
    ensures var inp := InputFor(shim, LookupFor(t), serviceAccount, namespace, Some(w.getConfigMap));
            var tok := ResolveToken(shim.id.name, shim.spec.token);
            Consider(w, namespace, serviceAccount, t, shim, acc).plans != acc.plans
            && !ValidShim(shim.spec, shim.id.name)
            <==> && Matches(shim.id.name, shim.spec.selection, t) == Some(true)
                 && Resolve(inp).Ok? && Buildable(shim, Resolve(inp).value, tok, w.defaults)
                 && BreaksLaxRule(shim.spec, shim.id.name)
  {
    var inp := InputFor(shim, LookupFor(t), serviceAccount, namespace, Some(w.getConfigMap));
    PlannedExact(shim, inp, w.defaults);
    hide Resolve, AllRender, TextOf, PathsFine, ModesParse, WithinCap, Valid, PullPolicyOk, AllReferOnlyTo,
         ModesMatch, PlanFrom, Enrolled, SetSelectors, SelectorsValid, FileModes.MatchesModePattern, InputFor,
         Paths.JoinPath, Known, TemplatedFields, SocketMountPath, SocketFile;
  }
}
