/**
  One admission request, decided on what the request, the pod and the cluster say: which answer
  it gets, which plans the listed shims give rise to, and what a shim's parameters are resolved
  from.
 */
module Requests {
  import opened Text
  import opened Keys
  import opened Bytes
  import opened Pods
  import opened Params
  import opened Specs
  import opened Selection
  import opened Listing
  import opened Plans
  import opened Validation
  import opened Greedy
  import opened Handler
  import opened Precedence
  import Delivery
  import Injection

  /* ---------- which plans there are ---------- */

  /** The shim matches the pod, and resolves and builds to that plan. */
  ghost predicate Yields(w: World, namespace: string, serviceAccount: string, t: Target, shim: Shim, plan: Plan)
  {
    Matches(shim.id.name, shim.spec.selection, t) == Some(true)
    && PlannedFrom(w, namespace, serviceAccount, t, shim, plan)
  }

  lemma ConsiderExact(w: World, namespace: string, serviceAccount: string, t: Target, shim: Shim, acc: PlanList)
    ensures var r := Consider(w, namespace, serviceAccount, t, shim, acc);
            forall plan :: plan in r.plans
                           <==> plan in acc.plans || Yields(w, namespace, serviceAccount, t, shim, plan)
  {
    hide Matches, PlanFor, ShimKey;
  }

  /** The complaint a shim gives rise to: a selector that does not compile, or why there is no plan. */
  ghost predicate Complains(w: World, namespace: string, serviceAccount: string, t: Target, shim: Shim,
                            x: HandlerWarning)
  {
    match Matches(shim.id.name, shim.spec.selection, t)
    case None => x == SelectorError(ShimKey(shim.id))
    case Some(matched) =>
      matched && x.ShimSkipped? && x.shimKey == ShimKey(shim.id)
      && PlanFor(shim, LookupFor(t), serviceAccount, namespace, Some(w.getConfigMap), w.defaults) == Skipped(x.cause)
  }

  lemma ConsiderComplains(w: World, namespace: string, serviceAccount: string, t: Target, shim: Shim, acc: PlanList,
                          x: HandlerWarning)
    ensures x in Consider(w, namespace, serviceAccount, t, shim, acc).warnings
            <==> x in acc.warnings || Complains(w, namespace, serviceAccount, t, shim, x)
  {
    hide Matches, PlanFor, ShimKey;
  }

  /** The complaints are those of the listed shims, and no others. */
  lemma {:induction false} ComplaintsExact(w: World, namespace: string, serviceAccount: string, t: Target,
                                           shims: seq<Shim>, x: HandlerWarning)
    ensures x in BuildPlans(w, namespace, serviceAccount, t, shims).warnings
            <==> exists shim :: shim in shims && Complains(w, namespace, serviceAccount, t, shim, x)
  {
    hide Consider, Complains;
    if shims != [] {
      var n := |shims| - 1;
      ComplaintsExact(w, namespace, serviceAccount, t, shims[..n], x);
      ConsiderComplains(w, namespace, serviceAccount, t, shims[n],
                        BuildPlans(w, namespace, serviceAccount, t, shims[..n]), x);
      assert shims == shims[..n] + [shims[n]];
      assert forall shim :: shim in shims <==> shim in shims[..n] || shim == shims[n];
    }
  }

  /** The plans handed to the engine are those the listed shims yield, and no others. */
  lemma {:induction false} PlansExact(w: World, namespace: string, serviceAccount: string, t: Target,
                                      shims: seq<Shim>, plan: Plan)
    ensures plan in BuildPlans(w, namespace, serviceAccount, t, shims).plans
            <==> exists shim :: shim in shims && Yields(w, namespace, serviceAccount, t, shim, plan)
  {
    hide Consider, Yields;
    if shims != [] {
      var n := |shims| - 1;
      PlansExact(w, namespace, serviceAccount, t, shims[..n], plan);
      ConsiderExact(w, namespace, serviceAccount, t, shims[n],
                    BuildPlans(w, namespace, serviceAccount, t, shims[..n]));
      assert shims == shims[..n] + [shims[n]];
      assert forall shim :: shim in shims <==> shim in shims[..n] || shim == shims[n];
    }
  }

  lemma ListedExact(namespaced: seq<Shim>, cluster: seq<Shim>, shim: Shim)
    ensures shim in ListShims(namespaced, cluster) <==> shim in namespaced || shim in cluster
  {
    SortMultiset(namespaced);
    SortMultiset(cluster);
    MembersKept(SortByName(namespaced), namespaced, shim);
    MembersKept(SortByName(cluster), cluster, shim);
  }

  /* ---------- when something is applied ---------- */

  predicate Acceptable(existing: nat, pod: PodState, plan: Plan)
  {
    Injection.Refusal(existing, Injection.Start(pod), plan).None?
  }

  /** A run applies something exactly when one of its plans is acceptable on the pod as it came. */
  lemma {:induction false} SomethingApplied(existing: nat, pod: PodState, plans: seq<Plan>)
    ensures var r := Injection.Run(existing, Injection.Start(pod), plans);
            && (r.applied == [] ==> SameUpToWarnings(r, Injection.Start(pod)))
            && (r.applied != [] <==> exists k :: 0 <= k < |plans| && Acceptable(existing, pod, plans[k]))
  {
    hide Injection.Step, Injection.Refusal;
    if plans != [] {
      var n := |plans| - 1;
      var front, s := plans[..n], Injection.Start(pod);
      var here := Injection.Run(existing, s, front);
      SomethingApplied(existing, pod, front);
      StepApplied(existing, here, plans[n]);
      assert forall k :: 0 <= k < n ==> front[k] == plans[k];
      if here.applied == [] {
        StepIgnoresWarnings(existing, here, s, plans[n]);
        if Injection.Refusal(existing, here, plans[n]).Some? {
          RefusedChangesNothing(existing, here, plans[n]);
        }
      }
    }
  }

  /* ---------- the answer ---------- */

  /** The namespace and the service account a request is about. */
  function About(req: Request, pod: PodState): string { if req.namespace != "" then req.namespace else pod.namespace }

  function Account(pod: PodState): string
  {
    if pod.serviceAccountName == "" then "default" else pod.serviceAccountName
  }

  predicate Marked(pod: PodState)
  {
    var key := "oidcshim.kemo.dev/status";
    key in pod.annotations && pod.annotations[key] == "injected"
  }

  ghost predicate AsksForNone(pod: PodState)
  {
    var key := "oidcshim.kemo.dev/inject";
    key in pod.annotations && SaysFalse(pod.annotations[key])
  }

  predicate Readable(w: World, namespace: string, pod: PodState)
  {
    && !w.namespaces(namespace).Failed? && !w.serviceAccounts(namespace, Account(pod)).Failed?
    && w.oidcShims(namespace).Some? && w.clusterShims.Some?
  }

  ghost predicate Listed(w: World, namespace: string, shim: Shim)
    requires w.oidcShims(namespace).Some? && w.clusterShims.Some?
  {
    shim in w.oidcShims(namespace).value || shim in w.clusterShims.value
  }

  /** Some listed shim yields a plan that is acceptable on the pod as it came. */
  ghost predicate SomeShimApplies(w: World, namespace: string, pod: PodState)
    requires w.oidcShims(namespace).Some? && w.clusterShims.Some?
  {
    exists shim, plan :: && Listed(w, namespace, shim)
                         && Yields(w, namespace, pod.serviceAccountName, TargetOf(w, namespace, pod), shim, plan)
                         && Acceptable(MapBytes(pod.annotations), pod, plan)
  }

  lemma {:induction false} AppliesExact(w: World, namespace: string, pod: PodState, plans: seq<Plan>)
    requires Readable(w, namespace, pod)
    requires plans == BuildPlans(w, namespace, pod.serviceAccountName, TargetOf(w, namespace, pod),
                                 ListShims(w.oidcShims(namespace).value, w.clusterShims.value)).plans
    ensures (exists k :: 0 <= k < |plans| && Acceptable(MapBytes(pod.annotations), pod, plans[k]))
            <==> SomeShimApplies(w, namespace, pod)
  {
    hide BuildPlans, ListShims, Yields, Acceptable, MapBytes, TargetOf;
    var sa, t := pod.serviceAccountName, TargetOf(w, namespace, pod);
    var shims := ListShims(w.oidcShims(namespace).value, w.clusterShims.value);
    forall shim ensures shim in shims <==> Listed(w, namespace, shim) {
      ListedExact(w.oidcShims(namespace).value, w.clusterShims.value, shim);
    }
    if k :| 0 <= k < |plans| && Acceptable(MapBytes(pod.annotations), pod, plans[k]) {
      PlansExact(w, namespace, sa, t, shims, plans[k]);
      assert plans[k] in plans;
    }
    if SomeShimApplies(w, namespace, pod) {
      var shim, plan :| Listed(w, namespace, shim) && Yields(w, namespace, sa, t, shim, plan)
                        && Acceptable(MapBytes(pod.annotations), pod, plan);
      PlansExact(w, namespace, sa, t, shims, plan);
    }
  }

  /** The first of the conditions that does not hold decides the answer. */
  ghost predicate Answers(r: Response, w: World, req: Request, pod: PodState)
  {
    var ns := About(req, pod);
    if !req.create then r == NotCreate
    else if !req.decodes then r == BadRequest
    else if AsksForNone(pod) then r == OptedOutResponse
    else if Marked(pod) then r == AlreadyInjectedResponse
    else if w.excluded(ns) then r == NamespaceExcluded
    else if !Readable(w, ns, pod) then r == ReadFailure
    else if !SomeShimApplies(w, ns, pod) then r.NoShimApplied?
    else r.Patched?
  }

  lemma GateReads(pod: PodState)
    ensures OptedOut(pod.annotations) <==> AsksForNone(pod)
    ensures Injection.Injected(pod) <==> Marked(pod)
  {
    OptedOutExact(pod.annotations);
    assert STATUS_ANNOTATION == "oidcshim.kemo.dev/status" && STATUS_INJECTED == "injected";
    hide OptedOut, SaysFalse;
  }

  /**
    A pod is patched exactly when a create request for it decodes, its annotation does not say
    "false", it is not marked as injected, its namespace is not excluded, everything can be read,
    and some listed shim applies.  Otherwise the pod is left as it is, and the answer names the
    first condition that fails.
   */
  lemma HandleExact(w: World, req: Request, pod: PodState)
    ensures var h, ns := Handle(w, req, pod), About(req, pod);
            && Answers(h.response, w, req, pod)
            && (h.response.Patched?
                <==> && req.create && req.decodes && !AsksForNone(pod) && !Marked(pod) && !w.excluded(ns)
                     && Readable(w, ns, pod) && SomeShimApplies(w, ns, pod))
            && (!h.response.Patched? ==> h.pod == pod)
  {
    GateReads(pod);
    HandleEffect(w, req, pod);
    hide OptedOut, AsksForNone, Injection.Injected, Marked, SomeShimApplies, BuildPlans, ListShims, Injection.Run,
         MapBytes, Acceptable, TargetOf;
    var ns := NamespaceOf(req, pod);
    if Readable(w, ns, pod) {
      var plans := BuildPlans(w, ns, pod.serviceAccountName, TargetOf(w, ns, pod),
                              ListShims(w.oidcShims(ns).value, w.clusterShims.value)).plans;
      AppliesExact(w, ns, pod, plans);
      SomethingApplied(MapBytes(pod.annotations), pod, plans);
    }
  }

  /** The warnings of an answer: the complaints of the listed shims, and what the engine reports. */
  lemma ResponseWarns(w: World, req: Request, pod: PodState, x: HandlerWarning)
    requires Considered(w, req, pod)
    ensures var ns, r := About(req, pod), Handle(w, req, pod).response;
            var plans := PlansFor(w, ns, pod).value.plans;
            x in WarningsIn(r)
            <==> || (exists shim :: Listed(w, ns, shim)
                                    && Complains(w, ns, pod.serviceAccountName, TargetOf(w, ns, pod), shim, x))
                 || (x.FromInjection? && x.warning in Injection.Apply(pod, plans).warnings)
  {
    hide OptedOut, Injection.Injected, Injection.Apply, BuildPlans, ListShims, TargetOf, Complains;
    var ns := NamespaceOf(req, pod);
    var list := PlansFor(w, ns, pod).value;
    var ws := Injection.Apply(pod, list.plans).warnings;
    ComplaintsExact(w, ns, pod.serviceAccountName, TargetOf(w, ns, pod),
                    ListShims(w.oidcShims(ns).value, w.clusterShims.value), x);
    forall shim
      ensures shim in ListShims(w.oidcShims(ns).value, w.clusterShims.value) <==> Listed(w, ns, shim)
    {
      ListedExact(w.oidcShims(ns).value, w.clusterShims.value, shim);
    }
    Wrapped(ws, x);
    assert WarningsIn(Handle(w, req, pod).response) == list.warnings + WrapWarnings(ws);
  }

  lemma Wrapped(ws: seq<Injection.Warning>, x: HandlerWarning)
    ensures x in WrapWarnings(ws) <==> x.FromInjection? && x.warning in ws
  {
    if x.FromInjection? && x.warning in ws {
      var i :| 0 <= i < |ws| && ws[i] == x.warning;
      assert WrapWarnings(ws)[i] == x;
    }
  }

  /* ---------- what a shim's parameters are resolved from ---------- */

  /** The object as it was read, or nothing at all where it does not exist. */
  predicate ReadAs(r: Read<Metadata>, m: Metadata)
  {
    if r.Found? then m == r.value else m.annotations == map[] && m.labels == map[]
  }

  /** The pod's own metadata, its service account and namespace, the builtins, and the ConfigMaps of one namespace. */
  lemma InputExact(w: World, namespace: string, pod: PodState, shim: Shim)
    ensures var inp := InputFor(shim, LookupFor(TargetOf(w, namespace, pod)), pod.serviceAccountName, namespace,
                                Some(w.getConfigMap));
            var tok := ResolveToken(shim.id.name, shim.spec.token);
            && inp.parameters == shim.spec.parameters && inp.getConfigMap == Some(w.getConfigMap)
            && inp.lookup.pod.annotations == pod.annotations && inp.lookup.pod.labels == pod.labels
            && ReadAs(w.serviceAccounts(namespace, Account(pod)), inp.lookup.serviceAccount)
            && ReadAs(w.namespaces(namespace), inp.lookup.namespace)
            && inp.builtins.podNamespace == namespace && inp.builtins.serviceAccountName == Account(pod)
            && inp.builtins.shimName == shim.id.name && inp.builtins.tokenDir == tok.mountPath
            && inp.builtins.tokenPath == Delivery.TokenPath(tok)
            && (shim.id.Namespaced? ==> inp.configMapNamespace == shim.id.namespace)
            && (shim.id.ClusterWide? ==> Takes(shim.configMapNamespace, namespace, inp.configMapNamespace))
  {
    hide ResolveToken, Delivery.TokenPath;
  }
}
