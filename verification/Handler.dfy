/**
  One admission request from end to end: list and sort the shims, build plans for those that
  match, inject.  Everything read from the cluster is an input; the request's effect on the pod
  is the specification `Handle`, computed by `HandlePod`.
 */
module Handler {
  import opened Text
  import opened Keys
  import opened Bytes
  import opened Pods
  import opened Params
  import opened Specs
  import opened Selection
  import opened Listing
  import opened Plans
  import opened Validation
  import opened Delivery
  import opened Frame
  import Injection
  import Engine

  datatype Read<+T> = Found(value: T) | Absent | Failed

  /** What the handler reads: options, namespaces, service accounts, shims, ConfigMaps. */
  datatype World = World(
    excluded: string -> bool,
    namespaces: string -> Read<Metadata>,
    serviceAccounts: (string, string) -> Read<Metadata>,
    oidcShims: string -> Option<seq<Shim>>,
    clusterShims: Option<seq<Shim>>,
    getConfigMap: (string, string) -> ConfigMapRead,
    defaults: Defaults)

  datatype Request = Request(create: bool, decodes: bool, namespace: string)

  datatype HandlerWarning =
    | SelectorError(shimKey: string)
    | ShimSkipped(shimKey: string, cause: SkipCause)
    | FromInjection(warning: Injection.Warning)

  datatype Response =
    | NotCreate
    | BadRequest
    | OptedOutResponse
    | AlreadyInjectedResponse
    | NamespaceExcluded
    | ReadFailure
    | NoShimApplied(warnings: seq<HandlerWarning>)
    | Patched(applied: seq<Plan>, warnings: seq<HandlerWarning>)

  /* ---------- building plans ---------- */

  function LookupFor(t: Target): Lookup
  {
    var none := Metadata(map[], map[]);
    Lookup(t.pod, if t.serviceAccount.Some? then t.serviceAccount.value else none,
           if t.namespace.Some? then t.namespace.value else none)
  }

  datatype PlanList = PlanList(plans: seq<Plan>, warnings: seq<HandlerWarning>)

  /** A shim that does not match is ignored; one that cannot be planned is skipped with a warning. */
  function Consider(w: World, namespace: string, serviceAccount: string, t: Target, shim: Shim, acc: PlanList): PlanList
  {
    match Matches(shim.id.name, shim.spec.selection, t)
    case None => acc.(warnings := acc.warnings + [SelectorError(ShimKey(shim.id))])
    case Some(false) => acc
    case Some(true) =>
      match PlanFor(shim, LookupFor(t), serviceAccount, namespace, Some(w.getConfigMap), w.defaults)
      case Skipped(cause) => acc.(warnings := acc.warnings + [ShimSkipped(ShimKey(shim.id), cause)])
      case Planned(plan) => acc.(plans := acc.plans + [plan])
  }

  function BuildPlans(w: World, namespace: string, serviceAccount: string, t: Target, shims: seq<Shim>): PlanList
  {
    if shims == [] then PlanList([], [])
    else Consider(w, namespace, serviceAccount, t, shims[|shims| - 1],
                  BuildPlans(w, namespace, serviceAccount, t, shims[..|shims| - 1]))
  }

  method BuildPlansLoop(w: World, namespace: string, serviceAccount: string, t: Target, shims: seq<Shim>)
    returns (acc: PlanList)
    ensures acc == BuildPlans(w, namespace, serviceAccount, t, shims)
  {
    hide Consider;
    acc := PlanList([], []);
    for i := 0 to |shims|
      invariant acc == BuildPlans(w, namespace, serviceAccount, t, shims[..i])
    {
      assert shims[..i + 1][..i] == shims[..i];
      acc := Consider(w, namespace, serviceAccount, t, shims[i], acc);
    }
    assert shims[..|shims|] == shims;
  }

  /** The plan came from that shim. */
  ghost predicate PlannedFrom(w: World, namespace: string, serviceAccount: string, t: Target, shim: Shim, plan: Plan)
  {
    PlanFor(shim, LookupFor(t), serviceAccount, namespace, Some(w.getConfigMap), w.defaults) == Planned(plan)
  }

  ghost predicate FromShims(w: World, namespace: string, serviceAccount: string, t: Target, shims: seq<Shim>,
                            plan: Plan)
  {
    exists shim :: shim in shims && PlannedFrom(w, namespace, serviceAccount, t, shim, plan)
  }

  lemma ConsiderAdds(w: World, namespace: string, serviceAccount: string, t: Target, shim: Shim, acc: PlanList)
    ensures var r := Consider(w, namespace, serviceAccount, t, shim, acc);
            r.plans == acc.plans
            || exists plan :: r.plans == acc.plans + [plan] && PathsDistinct(plan)
                              && PlannedFrom(w, namespace, serviceAccount, t, shim, plan)
  {
    hide Matches, PathsDistinct, PlanFor, ShimKey;
    var p := PlanFor(shim, LookupFor(t), serviceAccount, namespace, Some(w.getConfigMap), w.defaults);
    if p.Planned? {
      PlannedIsBuilt(shim, LookupFor(t), serviceAccount, namespace, Some(w.getConfigMap), w.defaults);
      assert PlannedFrom(w, namespace, serviceAccount, t, shim, p.plan);
    }
  }

  lemma FromMoreShims(w: World, namespace: string, serviceAccount: string, t: Target, shims: seq<Shim>, plan: Plan)
    requires shims != []
    ensures FromShims(w, namespace, serviceAccount, t, shims[..|shims| - 1], plan)
            ==> FromShims(w, namespace, serviceAccount, t, shims, plan)
    ensures PlannedFrom(w, namespace, serviceAccount, t, shims[|shims| - 1], plan)
            ==> FromShims(w, namespace, serviceAccount, t, shims, plan)
  {
    hide PlannedFrom;
    if FromShims(w, namespace, serviceAccount, t, shims[..|shims| - 1], plan) {
      var shim :| shim in shims[..|shims| - 1] && PlannedFrom(w, namespace, serviceAccount, t, shim, plan);
      assert shim in shims;
    }
    assert shims[|shims| - 1] in shims;
  }

  /** Every plan handed to the engine was built from a listed shim, and its paths are distinct. */
  lemma {:induction false} PlansWellFormed(w: World, namespace: string, serviceAccount: string, t: Target,
                                           shims: seq<Shim>)
    ensures forall k :: 0 <= k < |BuildPlans(w, namespace, serviceAccount, t, shims).plans| ==>
              var plan := BuildPlans(w, namespace, serviceAccount, t, shims).plans[k];
              PathsDistinct(plan) && FromShims(w, namespace, serviceAccount, t, shims, plan)
  {
    if shims != [] {
      hide Consider, PathsDistinct, FromShims, PlannedFrom;
      var shim, front := shims[|shims| - 1], shims[..|shims| - 1];
      PlansWellFormed(w, namespace, serviceAccount, t, front);
      var before := BuildPlans(w, namespace, serviceAccount, t, front);
      ConsiderAdds(w, namespace, serviceAccount, t, shim, before);
      var after := BuildPlans(w, namespace, serviceAccount, t, shims);
      forall k | 0 <= k < |after.plans|
        ensures PathsDistinct(after.plans[k]) && FromShims(w, namespace, serviceAccount, t, shims, after.plans[k])
      {
        FromMoreShims(w, namespace, serviceAccount, t, shims, after.plans[k]);
        assert k < |before.plans| ==> after.plans[k] == before.plans[k];
      }
    }
  }

  lemma PlannedIsBuilt(shim: Shim, lookup: Lookup, serviceAccount: string, podNamespace: string,
                       getConfigMap: Option<(string, string) -> ConfigMapRead>, d: Defaults)
    requires PlanFor(shim, lookup, serviceAccount, podNamespace, getConfigMap, d).Planned?
    ensures var plan := PlanFor(shim, lookup, serviceAccount, podNamespace, getConfigMap, d).plan;
            && PathsDistinct(plan) && plan.shimName == shim.id.name && plan.shimKey == ShimKey(shim.id)
            && plan.clusterScoped == shim.id.ClusterWide?
            && plan.token == ResolveToken(shim.id.name, shim.spec.token)
  {
    var tok := ResolveToken(shim.id.name, shim.spec.token);
    var inp := Input(shim.spec.parameters, lookup, BuiltinsFor(shim.id.name, serviceAccount, podNamespace, tok),
                     ConfigMapNamespaceFor(shim, podNamespace), getConfigMap);
    hide Resolve, Build, ResolveToken, BuiltinsFor, PathsDistinct, PathsFine, ModesParse;
    BuiltPlan(shim, Resolve(inp).value, tok, d);
  }

  /* ---------- the request ---------- */

  function NamespaceOf(req: Request, pod: PodState): string
  {
    if req.namespace != "" then req.namespace else pod.namespace
  }

  function ServiceAccountOf(pod: PodState): string
  {
    if pod.serviceAccountName == "" then DEFAULT_SERVICE_ACCOUNT else pod.serviceAccountName
  }

  function Present<T>(r: Read<T>): Option<T> { if r.Found? then Some(r.value) else None }

  function TargetOf(w: World, namespace: string, pod: PodState): Target
  {
    Target(Metadata(pod.annotations, pod.labels), Present(w.serviceAccounts(namespace, ServiceAccountOf(pod))),
           Present(w.namespaces(namespace)))
  }

  /** None when the namespace, the service account or a shim list cannot be read. */
  function PlansFor(w: World, namespace: string, pod: PodState): Option<PlanList>
  {
    if w.namespaces(namespace).Failed? || w.serviceAccounts(namespace, ServiceAccountOf(pod)).Failed? then None
    else if w.oidcShims(namespace).None? || w.clusterShims.None? then None
    else Some(BuildPlans(w, namespace, pod.serviceAccountName, TargetOf(w, namespace, pod),
                         ListShims(w.oidcShims(namespace).value, w.clusterShims.value)))
  }

  function WrapWarnings(ws: seq<Injection.Warning>): seq<HandlerWarning>
  {
    seq(|ws|, i requires 0 <= i < |ws| => FromInjection(ws[i]))
  }

  /** The gate before anything is read from the cluster; None when the request goes on. */
  function Gate(w: World, req: Request, pod: PodState): Option<Response>
  {
    if !req.create then Some(NotCreate)
    else if !req.decodes then Some(BadRequest)
    else if OptedOut(pod.annotations) then Some(OptedOutResponse)
    else if Injection.Injected(pod) then Some(AlreadyInjectedResponse)
    else if w.excluded(NamespaceOf(req, pod)) then Some(NamespaceExcluded)
    else None
  }

  datatype Handled = Handled(response: Response, pod: PodState)

  ghost function Handle(w: World, req: Request, pod: PodState): Handled
  {
    var gate := Gate(w, req, pod);
    if gate.Some? then Handled(gate.value, pod)
    else
      match PlansFor(w, NamespaceOf(req, pod), pod)
      case None => Handled(ReadFailure, pod)
      case Some(list) =>
        var out := Injection.Apply(pod, list.plans);
        var warnings := list.warnings + WrapWarnings(out.warnings);
        Handled(if out.applied == [] then NoShimApplied(warnings) else Patched(out.applied, warnings), out.pod)
  }

  /** The handler on a decoded pod object, mutated in place by the engine. */
  method HandlePod(w: World, req: Request, pod: Pod) returns (response: Response)
    modifies pod
    ensures Handled(response, pod.View()) == Handle(w, req, old(pod.View()))
  {
    hide Injection.Apply, BuildPlans, ListShims;
    var gate := Gate(w, req, pod.View());
    if gate.Some? {
      return gate.value;
    }
    var namespace := NamespaceOf(req, pod.View());
    if w.namespaces(namespace).Failed? || w.serviceAccounts(namespace, ServiceAccountOf(pod.View())).Failed? {
      return ReadFailure;
    }
    if w.oidcShims(namespace).None? || w.clusterShims.None? {
      return ReadFailure;
    }
    var shims := ListShims(w.oidcShims(namespace).value, w.clusterShims.value);
    var list := BuildPlansLoop(w, namespace, pod.serviceAccountName, TargetOf(w, namespace, pod.View()), shims);
    var applied, injectionWarnings := Engine.ApplyPlans(pod, list.plans);
    var warnings := list.warnings + WrapWarnings(injectionWarnings);
    if |applied| == 0 {
      return NoShimApplied(warnings);
    }
    response := Patched(applied, warnings);
  }

  /* ---------- determinism and precedence ---------- */

  /** Two views of one cluster that differ only in the order in which shims are listed. */
  ghost predicate SameUpToListOrder(a: World, b: World, namespace: string)
  {
    && b == a.(oidcShims := b.oidcShims, clusterShims := b.clusterShims)
    && a.oidcShims(namespace).Some? && b.oidcShims(namespace).Some? && a.clusterShims.Some? && b.clusterShims.Some?
    && multiset(a.oidcShims(namespace).value) == multiset(b.oidcShims(namespace).value)
    && multiset(a.clusterShims.value) == multiset(b.clusterShims.value)
    && NamesDistinct(a.oidcShims(namespace).value) && NamesDistinct(a.clusterShims.value)
  }

  lemma {:induction false} BuildPlansReadsOnly(a: World, b: World, namespace: string, serviceAccount: string, t: Target,
                                               shims: seq<Shim>)
    requires a.getConfigMap == b.getConfigMap && a.defaults == b.defaults
    ensures BuildPlans(a, namespace, serviceAccount, t, shims) == BuildPlans(b, namespace, serviceAccount, t, shims)
  {
    hide PlanFor, Matches;
    if shims != [] {
      BuildPlansReadsOnly(a, b, namespace, serviceAccount, t, shims[..|shims| - 1]);
    }
  }

  lemma SameReads(a: World, b: World, namespace: string)
    requires SameUpToListOrder(a, b, namespace)
    ensures a.excluded == b.excluded && a.namespaces == b.namespaces && a.serviceAccounts == b.serviceAccounts
    ensures a.getConfigMap == b.getConfigMap && a.defaults == b.defaults
    ensures a.oidcShims(namespace).Some? && b.oidcShims(namespace).Some? && a.clusterShims.Some? && b.clusterShims.Some?
    ensures ListShims(a.oidcShims(namespace).value, a.clusterShims.value)
            == ListShims(b.oidcShims(namespace).value, b.clusterShims.value)
  {
    hide SortByName, NamesDistinct;
    SortIgnoresOrder(a.oidcShims(namespace).value, b.oidcShims(namespace).value);
    SortIgnoresOrder(a.clusterShims.value, b.clusterShims.value);
  }

  lemma PlansIgnoreListOrder(a: World, b: World, namespace: string, pod: PodState)
    requires SameUpToListOrder(a, b, namespace)
    ensures PlansFor(a, namespace, pod) == PlansFor(b, namespace, pod)
  {
    SameReads(a, b, namespace);
    hide SameUpToListOrder, ListShims, BuildPlans;
    var shims := ListShims(a.oidcShims(namespace).value, a.clusterShims.value);
    BuildPlansReadsOnly(a, b, namespace, pod.serviceAccountName, TargetOf(a, namespace, pod), shims);
  }

  /** The outcome does not depend on the order in which the cache lists shims. */
  lemma HandleIgnoresListOrder(a: World, b: World, req: Request, pod: PodState)
    requires SameUpToListOrder(a, b, NamespaceOf(req, pod))
    ensures Handle(a, req, pod) == Handle(b, req, pod)
  {
    var ns := NamespaceOf(req, pod);
    hide SameUpToListOrder, PlansFor, Injection.Apply, OptedOut, Injection.Injected, ListShims;
    SameReads(a, b, ns);
    PlansIgnoreListOrder(a, b, ns, pod);
  }

  /* ---------- runs ---------- */

  /** What can happen to a pod: an admission request, or any other mutation of it. */
  datatype Event = Admission(world: World, req: Request) | Mutation(to: PodState)

  ghost function Next(pod: PodState, e: Event): PodState
  {
    match e
    case Admission(w, req) => Handle(w, req, pod).pod
    case Mutation(to) => to
  }

  /** Other mutations may do anything except remove the status the handler wrote. */
  ghost predicate KeepsStatus(pod: PodState, events: seq<Event>)
    decreases events
  {
    events == [] ||
    ((events[0].Mutation? && Injection.Injected(pod) ==> Injection.Injected(events[0].to))
     && KeepsStatus(Next(pod, events[0]), events[1..]))
  }

  ghost function ChangingAdmissions(pod: PodState, events: seq<Event>): nat
    decreases events
  {
    if events == [] then 0
    else (if events[0].Admission? && Next(pod, events[0]) != pod then 1 else 0)
         + ChangingAdmissions(Next(pod, events[0]), events[1..])
  }

  /** The handler changes a pod exactly when it patches it, and then the pod is marked. */
  lemma HandleEffect(w: World, req: Request, pod: PodState)
    ensures var h := Handle(w, req, pod);
            && (!h.response.Patched? ==> h.pod == pod)
            && (h.response.Patched? ==> !Injection.Injected(pod) && Injection.Injected(h.pod) && h.pod != pod)
            && (Injection.Injected(pod) ==> h.pod == pod)
  {
    hide BuildPlans, ListShims, OptedOut, Injection.Run, MapBytes;
    BookkeepingKeysApart();
    var gate := Gate(w, req, pod);
    if gate.None? {
      var list := PlansFor(w, NamespaceOf(req, pod), pod);
      if list.Some? {
        NothingAppliedNothingChanged(MapBytes(pod.annotations), Injection.Start(pod), list.value.plans);
      }
    }
  }

  lemma {:induction false} InjectedStaysPut(pod: PodState, events: seq<Event>)
    requires Injection.Injected(pod) && KeepsStatus(pod, events)
    ensures ChangingAdmissions(pod, events) == 0
    decreases events
  {
    hide Handle, Injection.Injected;
    if events != [] {
      if events[0].Admission? {
        HandleEffect(events[0].world, events[0].req, pod);
      }
      InjectedStaysPut(Next(pod, events[0]), events[1..]);
    }
  }

  /**
    Whole-run safety: however admission requests, under whatever cluster states, interleave with
    other mutations that keep the status annotation, at most one of them changes the pod.
   */
  lemma {:induction false} AtMostOneInjection(pod: PodState, events: seq<Event>)
    requires KeepsStatus(pod, events)
    ensures ChangingAdmissions(pod, events) <= 1
    decreases events
  {
    hide Handle, Injection.Injected;
    if events != [] {
      var next := Next(pod, events[0]);
      if events[0].Admission? {
        HandleEffect(events[0].world, events[0].req, pod);
      }
      if events[0].Admission? && next != pod {
        InjectedStaysPut(next, events[1..]);
      } else {
        AtMostOneInjection(next, events[1..]);
      }
    }
  }
}
