/**
  Order and precedence among the shims of one request: namespaced plans come first, on a shared
  name the namespaced shim wins, and no listed shim is dropped without a trace.
 */
module Precedence {
  import opened Text
  import opened Keys
  import opened Bytes
  import opened Pods
  import opened Specs
  import opened Selection
  import opened Plans
  import opened Validation
  import opened Greedy
  import opened Delivery
  import opened Payload
  import opened Listing
  import opened Handler
  import Injection

  /* ---------- the order of plans ---------- */

  lemma {:induction false} BuildPlansSplit(w: World, namespace: string, serviceAccount: string, t: Target,
                                           a: seq<Shim>, b: seq<Shim>)
    ensures BuildPlans(w, namespace, serviceAccount, t, a + b).plans
            == BuildPlans(w, namespace, serviceAccount, t, a).plans
               + BuildPlans(w, namespace, serviceAccount, t, b).plans
  {
    hide PlanFor, Matches;
    if b == [] {
      assert a + b == a;
    } else {
      assert (a + b)[..|a + b| - 1] == a + b[..|b| - 1];
      BuildPlansSplit(w, namespace, serviceAccount, t, a, b[..|b| - 1]);
    }
  }

  /** What listing by kind guarantees: the first list holds OIDCShims, the second ClusterOIDCShims. */
  ghost predicate ListedByKind(w: World, namespace: string)
  {
    && w.oidcShims(namespace).Some? && w.clusterShims.Some?
    && (forall shim :: shim in w.oidcShims(namespace).value ==> shim.id.Namespaced?)
    && (forall shim :: shim in w.clusterShims.value ==> shim.id.ClusterWide?)
  }

  predicate PlansInNameOrder(plans: seq<Plan>)
  {
    forall k, l :: 0 <= k < l < |plans| ==> !Less(plans[l].shimName, plans[k].shimName)
  }

  lemma PlanNamesShim(w: World, namespace: string, serviceAccount: string, t: Target, shims: seq<Shim>, plan: Plan)
    returns (id: ShimId)
    requires FromShims(w, namespace, serviceAccount, t, shims, plan)
    ensures Names(shims, id) && plan.shimKey == ShimKey(id) && plan.shimName == id.name
    ensures plan.clusterScoped == id.ClusterWide?
  {
    var shim :| shim in shims && PlannedFrom(w, namespace, serviceAccount, t, shim, plan);
    PlannedIsBuilt(shim, LookupFor(t), serviceAccount, namespace, Some(w.getConfigMap), w.defaults);
    hide PlanFor, PathsDistinct;
    id := shim.id;
  }

  /** A key among the listed shims' keys, as an identity. */
  ghost predicate Names(shims: seq<Shim>, id: ShimId)
  {
    exists shim :: shim in shims && shim.id == id
  }

  lemma {:induction false} PlansSorted(w: World, namespace: string, serviceAccount: string, t: Target, shims: seq<Shim>)
    requires SortedByName(shims)
    ensures PlansInNameOrder(BuildPlans(w, namespace, serviceAccount, t, shims).plans)
  {
    if shims != [] {
      var n := |shims| - 1;
      var front := shims[..n];
      assert SortedByName(front);
      PlansSorted(w, namespace, serviceAccount, t, front);
      PlansWellFormed(w, namespace, serviceAccount, t, front);
      var before, after := BuildPlans(w, namespace, serviceAccount, t, front).plans,
                           BuildPlans(w, namespace, serviceAccount, t, shims).plans;
      ConsiderAdds(w, namespace, serviceAccount, t, shims[n], BuildPlans(w, namespace, serviceAccount, t, front));
      hide Consider, BuildPlans, PathsDistinct, FromShims, PlannedFrom, SortedByName, Less;
      if after != before {
        PlannedName(w, namespace, serviceAccount, t, shims[n], after[|before|]);
        forall k | 0 <= k < |before| ensures !Less(shims[n].id.name, before[k].shimName) {
          var id := PlanNamesShim(w, namespace, serviceAccount, t, front, before[k]);
          NotAfterLast(shims, id);
        }
        AppendInOrder(before, after[|before|]);
      }
    }
  }

  lemma AppendInOrder(plans: seq<Plan>, plan: Plan)
    requires PlansInNameOrder(plans) && forall k :: 0 <= k < |plans| ==> !Less(plan.shimName, plans[k].shimName)
    ensures PlansInNameOrder(plans + [plan])
  {
    hide Less;
  }

  lemma NotAfterLast(shims: seq<Shim>, id: ShimId)
    requires shims != [] && SortedByName(shims) && Names(shims[..|shims| - 1], id)
    ensures !Less(shims[|shims| - 1].id.name, id.name)
  {
    var shim :| shim in shims[..|shims| - 1] && shim.id == id;
    var i :| 0 <= i < |shims| - 1 && shims[i] == shim;
  }

  lemma PlannedName(w: World, namespace: string, serviceAccount: string, t: Target, shim: Shim, plan: Plan)
    requires PlannedFrom(w, namespace, serviceAccount, t, shim, plan)
    ensures plan.shimName == shim.id.name && plan.clusterScoped == shim.id.ClusterWide?
  {
    PlannedIsBuilt(shim, LookupFor(t), serviceAccount, namespace, Some(w.getConfigMap), w.defaults);
    hide PlanFor, PathsDistinct;
  }

  lemma {:induction false} PlansOfKind(w: World, namespace: string, serviceAccount: string, t: Target,
                                       shims: seq<Shim>, cluster: bool)
    requires forall shim :: shim in shims ==> shim.id.ClusterWide? == cluster
    ensures forall k :: 0 <= k < |BuildPlans(w, namespace, serviceAccount, t, shims).plans| ==>
              BuildPlans(w, namespace, serviceAccount, t, shims).plans[k].clusterScoped == cluster
  {
    PlansWellFormed(w, namespace, serviceAccount, t, shims);
    hide BuildPlans, PathsDistinct, FromShims;
    var plans := BuildPlans(w, namespace, serviceAccount, t, shims).plans;
    forall k | 0 <= k < |plans| ensures plans[k].clusterScoped == cluster {
      var id := PlanNamesShim(w, namespace, serviceAccount, t, shims, plans[k]);
    }
  }

  lemma {:induction false} SortedOfKind(shims: seq<Shim>, cluster: bool)
    requires forall shim :: shim in shims ==> shim.id.ClusterWide? == cluster
    ensures forall shim :: shim in SortByName(shims) ==> shim.id.ClusterWide? == cluster
  {
    SortMultiset(shims);
    forall shim | shim in SortByName(shims) ensures shim.id.ClusterWide? == cluster {
      MembersKept(SortByName(shims), shims, shim);
    }
  }

  /** Plans are handed to the engine namespaced before cluster-wide, each group in name order. */
  lemma NamespacedFirst(w: World, namespace: string, pod: PodState) returns (n: nat)
    requires PlansFor(w, namespace, pod).Some? && ListedByKind(w, namespace)
    ensures var plans := PlansFor(w, namespace, pod).value.plans;
            && n <= |plans| && PlansInNameOrder(plans[..n]) && PlansInNameOrder(plans[n..])
            && forall k :: 0 <= k < |plans| ==> (plans[k].clusterScoped <==> n <= k)
  {
    var sa, t := pod.serviceAccountName, TargetOf(w, namespace, pod);
    var a, b := SortByName(w.oidcShims(namespace).value), SortByName(w.clusterShims.value);
    BuildPlansSplit(w, namespace, sa, t, a, b);
    SortSorted(w.oidcShims(namespace).value);
    SortSorted(w.clusterShims.value);
    SortedOfKind(w.oidcShims(namespace).value, false);
    SortedOfKind(w.clusterShims.value, true);
    hide BuildPlans, SortByName, SortedByName, PlansInNameOrder, TargetOf;
    PlansSorted(w, namespace, sa, t, a);
    PlansSorted(w, namespace, sa, t, b);
    PlansOfKind(w, namespace, sa, t, a, false);
    PlansOfKind(w, namespace, sa, t, b, true);
    var first, second := BuildPlans(w, namespace, sa, t, a).plans, BuildPlans(w, namespace, sa, t, b).plans;
    n := |first|;
    assert (first + second)[..n] == first && (first + second)[n..] == second;
  }

  function AppliedIn(r: Response): seq<Plan> { if r.Patched? then r.applied else [] }

  function WarningsIn(r: Response): seq<HandlerWarning>
  {
    if r.Patched? then r.warnings else if r.NoShimApplied? then r.warnings else []
  }

  /** A warning of the response says that this plan was skipped. */
  ghost predicate WarnedAbout(r: Response, plan: Plan)
  {
    exists warning :: warning in WarningsIn(r) && warning.FromInjection? && SkipWarning(warning.warning, plan)
  }

  /** The request gets as far as building plans. */
  ghost predicate Considered(w: World, req: Request, pod: PodState)
  {
    Gate(w, req, pod).None? && PlansFor(w, NamespaceOf(req, pod), pod).Some?
  }

  lemma WarningPassedOn(w: World, req: Request, pod: PodState, plan: Plan)
    requires Considered(w, req, pod)
    requires Warned(Injection.Apply(pod, PlansFor(w, NamespaceOf(req, pod), pod).value.plans).warnings, plan)
    ensures WarnedAbout(Handle(w, req, pod).response, plan)
  {
    hide Injection.Apply, PlansFor, OptedOut;
    var list := PlansFor(w, NamespaceOf(req, pod), pod).value;
    var ws := Injection.Apply(pod, list.plans).warnings;
    var x :| x in ws && SkipWarning(x, plan);
    var i :| 0 <= i < |ws| && ws[i] == x;
    assert WrapWarnings(ws)[i] == FromInjection(x);
    assert FromInjection(x) in list.warnings + WrapWarnings(ws);
  }

  /** Every plan handed to the engine is applied, or the response warns about it. */
  lemma PlansAccounted(w: World, req: Request, pod: PodState, k: nat)
    requires Considered(w, req, pod) && k < |PlansFor(w, NamespaceOf(req, pod), pod).value.plans|
    ensures var plan, r := PlansFor(w, NamespaceOf(req, pod), pod).value.plans[k], Handle(w, req, pod).response;
            plan in AppliedIn(r) || WarnedAbout(r, plan)
  {
    hide PlansFor, OptedOut, Injection.Run, MapBytes, Warned, Accounted, WarnedAbout;
    var plans := PlansFor(w, NamespaceOf(req, pod), pod).value.plans;
    var out := Injection.Apply(pod, plans);
    var at := AppliedSubsequence(MapBytes(pod.annotations), Injection.Start(pod), plans);
    if plans[k] !in out.applied {
      NotPicked(plans, out.applied, at, k, out.warnings);
      WarningPassedOn(w, req, pod, plans[k]);
    }
  }

  lemma NotPicked(plans: seq<Plan>, applied: seq<Plan>, at: seq<nat>, k: nat, warnings: seq<Injection.Warning>)
    requires k < |plans| && plans[k] !in applied && Picks(plans, applied, at) && Accounted(plans, warnings, at)
    ensures Warned(warnings, plans[k])
  {
    hide Warned;
    if k in at {
      PickedIsApplied(plans, applied, at, k);
    }
  }

  lemma PickedIsApplied(plans: seq<Plan>, applied: seq<Plan>, at: seq<nat>, k: nat)
    requires k in at && Picks(plans, applied, at)
    ensures k < |plans| && plans[k] in applied
  {
    var l :| 0 <= l < |at| && at[l] == k;
    assert applied[l] in applied;
  }

  /** Applied plans have pairwise distinct shim names, whatever their kind. */
  lemma OneShimPerName(w: World, req: Request, pod: PodState)
    ensures DistinctShims(AppliedIn(Handle(w, req, pod).response))
  {
    hide Injection.Apply, PlansFor, OptedOut;
    NoShimsDistinct();
    if Handle(w, req, pod).response.Patched? {
      ApplyAnnotations(pod, PlansFor(w, NamespaceOf(req, pod), pod).value.plans);
    }
  }

  /**
    Precedence: when a namespaced and a cluster shim of one name are both planned, the namespaced
    plan is tried first.  The cluster plan is applied only if the namespaced one was refused, with
    a warning; and if the namespaced one is accepted on its turn, the cluster one is warned about.
   */
  lemma NamespacedWins(w: World, req: Request, pod: PodState, a: nat, b: nat)
    requires Considered(w, req, pod) && ListedByKind(w, NamespaceOf(req, pod))
    requires var plans := PlansFor(w, NamespaceOf(req, pod), pod).value.plans;
             && a < |plans| && b < |plans| && !plans[a].clusterScoped && plans[b].clusterScoped
             && plans[a].shimName == plans[b].shimName
    ensures var plans, r := PlansFor(w, NamespaceOf(req, pod), pod).value.plans, Handle(w, req, pod).response;
            var turn := Injection.Run(MapBytes(pod.annotations), Injection.Start(pod), plans[..a]);
            && a < b
            && (plans[b] in AppliedIn(r) ==> plans[a] !in AppliedIn(r) && WarnedAbout(r, plans[a]))
            && (Injection.Refusal(MapBytes(pod.annotations), turn, plans[a]).None? ==>
                  plans[a] in AppliedIn(r) && plans[b] !in AppliedIn(r) && WarnedAbout(r, plans[b]))
  {
    var n := NamespacedFirst(w, NamespaceOf(req, pod), pod);
    hide PlansFor, OptedOut, Injection.Run, MapBytes, WarnedAbout, Injection.Refusal, ListedByKind,
         PlansInNameOrder;
    var plans, r := PlansFor(w, NamespaceOf(req, pod), pod).value.plans, Handle(w, req, pod).response;
    PlansAccounted(w, req, pod, a);
    PlansAccounted(w, req, pod, b);
    OneShimPerName(w, req, pod);
    if plans[a] in AppliedIn(r) && plans[b] in AppliedIn(r) {
      SameNameSamePlan(AppliedIn(r), plans[a], plans[b]);
    }
    AcceptedIsApplied(MapBytes(pod.annotations), pod, plans, a);
  }

  lemma SameNameSamePlan(applied: seq<Plan>, p: Plan, q: Plan)
    requires DistinctShims(applied) && p in applied && q in applied && p.shimName == q.shimName
    ensures p == q
  {
    var k :| 0 <= k < |applied| && applied[k] == p;
    var l :| 0 <= l < |applied| && applied[l] == q;
  }

  lemma {:induction false} AcceptedIsApplied(existing: nat, pod: PodState, plans: seq<Plan>, a: nat)
    requires a < |plans|
    ensures var s := Injection.Start(pod);
            Injection.Refusal(existing, Injection.Run(existing, s, plans[..a]), plans[a]).None? ==>
              plans[a] in Injection.Run(existing, s, plans).applied
  {
    hide Injection.Step, Injection.Refusal, Extends;
    var s := Injection.Start(pod);
    var here := Injection.Run(existing, s, plans[..a]);
    assert plans[..a + 1][..a] == plans[..a];
    StepApplied(existing, here, plans[a]);
    RunLater(existing, s, plans, a + 1);
    if Injection.Refusal(existing, here, plans[a]).None? {
      assert plans[a] in Injection.Run(existing, s, plans[..a + 1]).applied;
    }
  }

  /** What became of one listed shim when plans were built. */
  ghost predicate BuildAccount(w: World, namespace: string, serviceAccount: string, t: Target, shim: Shim,
                               acc: PlanList)
  {
    || Matches(shim.id.name, shim.spec.selection, t) == Some(false)
    || SelectorError(ShimKey(shim.id)) in acc.warnings
    || (exists cause :: ShimSkipped(ShimKey(shim.id), cause) in acc.warnings)
    || (exists plan :: plan in acc.plans && PlannedFrom(w, namespace, serviceAccount, t, shim, plan))
  }

  lemma AccountKept(w: World, namespace: string, serviceAccount: string, t: Target, shim: Shim, acc: PlanList,
                    more: PlanList)
    requires acc.plans <= more.plans && acc.warnings <= more.warnings
    requires BuildAccount(w, namespace, serviceAccount, t, shim, acc)
    ensures BuildAccount(w, namespace, serviceAccount, t, shim, more)
  {
    hide Matches, PlannedFrom, ShimKey;
    if cause :| ShimSkipped(ShimKey(shim.id), cause) in acc.warnings {
      assert ShimSkipped(ShimKey(shim.id), cause) in more.warnings;
    }
    if plan :| plan in acc.plans && PlannedFrom(w, namespace, serviceAccount, t, shim, plan) {
      assert plan in more.plans;
    }
  }

  lemma ConsiderAccounts(w: World, namespace: string, serviceAccount: string, t: Target, shim: Shim, acc: PlanList)
    ensures var r := Consider(w, namespace, serviceAccount, t, shim, acc);
            acc.plans <= r.plans && acc.warnings <= r.warnings && BuildAccount(w, namespace, serviceAccount, t, shim, r)
  {
    hide Matches, PlanFor, ShimKey;
    var r := Consider(w, namespace, serviceAccount, t, shim, acc);
    var p := PlanFor(shim, LookupFor(t), serviceAccount, namespace, Some(w.getConfigMap), w.defaults);
    if Matches(shim.id.name, shim.spec.selection, t) == Some(true) {
      if p.Planned? {
        assert p.plan in r.plans && PlannedFrom(w, namespace, serviceAccount, t, shim, p.plan);
      } else {
        assert ShimSkipped(ShimKey(shim.id), p.cause) in r.warnings;
      }
    }
  }

  lemma {:induction false} BuildAccounts(w: World, namespace: string, serviceAccount: string, t: Target,
                                         shims: seq<Shim>, shim: Shim)
    requires shim in shims
    ensures BuildAccount(w, namespace, serviceAccount, t, shim, BuildPlans(w, namespace, serviceAccount, t, shims))
  {
    hide Consider, BuildAccount;
    var n := |shims| - 1;
    var before := BuildPlans(w, namespace, serviceAccount, t, shims[..n]);
    ConsiderAccounts(w, namespace, serviceAccount, t, shims[n], before);
    if shim != shims[n] {
      BuildAccounts(w, namespace, serviceAccount, t, shims[..n], shim);
      AccountKept(w, namespace, serviceAccount, t, shim, before, BuildPlans(w, namespace, serviceAccount, t, shims));
    }
  }

  /**
    No listed shim is dropped silently: it does not match, or a warning names it, or its plan is
    applied, or a warning says that its plan was skipped.
   */
  lemma EveryShimAccounted(w: World, req: Request, pod: PodState, shim: Shim)
    requires Considered(w, req, pod)
    requires var ns := NamespaceOf(req, pod); shim in ListShims(w.oidcShims(ns).value, w.clusterShims.value)
    ensures var r, ns := Handle(w, req, pod).response, NamespaceOf(req, pod);
            || Matches(shim.id.name, shim.spec.selection, TargetOf(w, ns, pod)) == Some(false)
            || SelectorError(ShimKey(shim.id)) in WarningsIn(r)
            || (exists cause :: ShimSkipped(ShimKey(shim.id), cause) in WarningsIn(r))
            || (exists plan :: PlannedFrom(w, ns, pod.serviceAccountName, TargetOf(w, ns, pod), shim, plan)
                               && (plan in AppliedIn(r) || WarnedAbout(r, plan)))
  {
    var ns := NamespaceOf(req, pod);
    var sa, t, r := pod.serviceAccountName, TargetOf(w, ns, pod), Handle(w, req, pod).response;
    hide Injection.Apply, BuildPlans, ListShims, OptedOut, Matches, PlannedFrom, WarnedAbout, ShimKey, TargetOf;
    BuildAccounts(w, ns, sa, t, ListShims(w.oidcShims(ns).value, w.clusterShims.value), shim);
    var list := PlansFor(w, ns, pod).value;
    assert list.warnings <= WarningsIn(r);
    if cause :| ShimSkipped(ShimKey(shim.id), cause) in list.warnings {
      assert ShimSkipped(ShimKey(shim.id), cause) in WarningsIn(r);
    }
    if plan :| plan in list.plans && PlannedFrom(w, ns, sa, t, shim, plan) {
      var k :| 0 <= k < |list.plans| && list.plans[k] == plan;
      PlansAccounted(w, req, pod, k);
    }
  }
}
