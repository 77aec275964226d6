/**
  What the engine writes into annotations and init containers over a whole run: exactly the
  payloads and the helper containers of the applied plans, whose shim names are pairwise
  distinct, and a byte-exact account of the pod's annotations.
 */
module Payload {
  import opened Text
  import opened Keys
  import opened Bytes
  import opened Pods
  import opened Injection
  import opened Greedy

  /* ---------- the init containers of a run ---------- */

  function Helpers(plans: seq<Plan>): (cs: seq<Container>)
    ensures |cs| == 2 * |plans|
    ensures forall k :: 0 <= k < |plans| ==>
              cs[2 * k] == HelperContainer(plans[k], false) && cs[2 * k + 1] == HelperContainer(plans[k], true)
  {
    if plans == [] then [] else Helpers(plans[..|plans| - 1]) + HelperContainers(plans[|plans| - 1])
  }

  /** The queue holds init then refresh for each applied plan, in the order of application. */
  lemma {:induction false} QueueIsHelpers(existing: nat, s: Progress, plans: seq<Plan>)
    requires s.newInits == Helpers(s.applied)
    ensures Run(existing, s, plans).newInits == Helpers(Run(existing, s, plans).applied)
  {
    if plans != [] {
      hide Step, Refusal, InjectPlan, ResolveTargets, HelperContainers;
      var here, plan := Run(existing, s, plans[..|plans| - 1]), plans[|plans| - 1];
      QueueIsHelpers(existing, s, plans[..|plans| - 1]);
      StepQueue(existing, here, plan);
      StepApplied(existing, here, plan);
      assert (here.applied + [plan])[..|here.applied|] == here.applied;
    }
  }

  predicate DistinctShims(plans: seq<Plan>)
  {
    forall i, j :: 0 <= i < j < |plans| ==> plans[i].shimName != plans[j].shimName
  }

  /** A plan whose shim name is already represented among the applied ones is refused. */
  lemma SameShimRefused(existing: nat, s: Progress, plan: Plan, k: nat)
    requires s.newInits == Helpers(s.applied)
    requires k < |s.applied| && s.applied[k].shimName == plan.shimName
    ensures Refusal(existing, s, plan).Some?
  {
    hide ResolveTargets, MountProblem, SocketProblem;
    assert s.newInits[2 * k].name == InitContainerName(plan.shimName);
  }

  lemma AcceptedShimIsNew(existing: nat, s: Progress, plan: Plan)
    requires s.newInits == Helpers(s.applied) && DistinctShims(s.applied)
    requires Refusal(existing, s, plan).None?
    ensures DistinctShims(s.applied + [plan])
  {
    hide Refusal, Helpers;
    forall k | 0 <= k < |s.applied| ensures s.applied[k].shimName != plan.shimName {
      if s.applied[k].shimName == plan.shimName {
        SameShimRefused(existing, s, plan, k);
      }
    }
  }

  /** Whatever the input, the applied plans have pairwise distinct shim names. */
  lemma {:induction false} AppliedShimsDistinct(existing: nat, s: Progress, plans: seq<Plan>)
    requires s.newInits == Helpers(s.applied) && DistinctShims(s.applied)
    ensures DistinctShims(Run(existing, s, plans).applied)
  {
    if plans != [] {
      hide Step, Refusal, Helpers, DistinctShims;
      var front, plan := plans[..|plans| - 1], plans[|plans| - 1];
      AppliedShimsDistinct(existing, s, front);
      QueueIsHelpers(existing, s, front);
      var here := Run(existing, s, front);
      StepApplied(existing, here, plan);
      if Refusal(existing, here, plan).None? {
        AcceptedShimIsNew(existing, here, plan);
      }
    }
  }

  /* ---------- payloads as maps ---------- */

  function PlanPayload(plan: Plan): map<string, string> { WritePayload(map[], plan) }

  lemma {:induction false} WriteFilesAdds(m: map<string, string>, plan: Plan, n: nat)
    requires n <= |plan.files|
    ensures WriteFiles(m, plan, n) == m + WriteFiles(map[], plan, n)
  {
    if n > 0 {
      WriteFilesAdds(m, plan, n - 1);
    }
  }

  lemma PayloadAdds(m: map<string, string>, plan: Plan)
    ensures WritePayload(m, plan) == m + PlanPayload(plan)
  {
    var conf := HelperConfAnnotation(plan.shimName);
    WriteFilesAdds(m[conf := plan.helperConf], plan, |plan.files|);
    WriteFilesAdds(map[][conf := plan.helperConf], plan, |plan.files|);
  }

  /** The payload maps each derived key to its own content: no write of a plan hides another. */
  lemma {:induction false} FileWritten(m: map<string, string>, plan: Plan, n: nat, i: nat)
    requires i < n <= |plan.files|
    ensures FileAnnotation(plan.shimName, i) in WriteFiles(m, plan, n)
    ensures WriteFiles(m, plan, n)[FileAnnotation(plan.shimName, i)] == plan.files[i].content
  {
    if i < n - 1 {
      FileWritten(m, plan, n - 1, i);
      FileAnnotationInjective(plan.shimName, i, plan.shimName, n - 1);
    }
  }

  lemma {:induction false} WriteFilesKeys(m: map<string, string>, plan: Plan, n: nat, key: string)
    requires n <= |plan.files|
    ensures key in WriteFiles(m, plan, n)
            <==> key in m || exists i :: 0 <= i < n && key == FileAnnotation(plan.shimName, i)
  {
    if n > 0 {
      hide FileAnnotation;
      WriteFilesKeys(m, plan, n - 1, key);
    }
  }

  lemma PayloadEntries(plan: Plan)
    ensures HelperConfAnnotation(plan.shimName) in PlanPayload(plan)
    ensures PlanPayload(plan)[HelperConfAnnotation(plan.shimName)] == plan.helperConf
    ensures forall i :: 0 <= i < |plan.files| ==>
              && FileAnnotation(plan.shimName, i) in PlanPayload(plan)
              && PlanPayload(plan)[FileAnnotation(plan.shimName, i)] == plan.files[i].content
  {
    var conf := HelperConfAnnotation(plan.shimName);
    var m := map[][conf := plan.helperConf];
    forall i | 0 <= i < |plan.files| ensures conf != FileAnnotation(plan.shimName, i) {
      PayloadKeysApart(plan.shimName, i, plan.shimName);
    }
    hide HelperConfAnnotation, FileAnnotation;
    WriteFilesFrame(m, plan, |plan.files|, conf);
    forall i | 0 <= i < |plan.files|
      ensures FileAnnotation(plan.shimName, i) in PlanPayload(plan)
      ensures PlanPayload(plan)[FileAnnotation(plan.shimName, i)] == plan.files[i].content
    {
      FileWritten(m, plan, |plan.files|, i);
    }
  }

  lemma PayloadKeyShape(plan: Plan, key: string)
    requires key in PlanPayload(plan)
    ensures key == HelperConfAnnotation(plan.shimName)
            || exists i :: 0 <= i < |plan.files| && key == FileAnnotation(plan.shimName, i)
  {
    hide HelperConfAnnotation, FileAnnotation;
    WriteFilesKeys(map[][HelperConfAnnotation(plan.shimName) := plan.helperConf], plan, |plan.files|, key);
  }

  /** Payloads of different shims share no key, and none of them is a bookkeeping key. */
  lemma PayloadsDisjoint(a: Plan, b: Plan, key: string)
    requires key in PlanPayload(a)
    ensures a.shimName != b.shimName ==> key !in PlanPayload(b)
    ensures key !in {STATUS_ANNOTATION, SHIMS_ANNOTATION, CONTAINERS_ANNOTATION}
  {
    hide PlanPayload;
    PayloadKeyShape(a, key);
    PayloadKeysApart(a.shimName, 0, b.shimName);
    if key != HelperConfAnnotation(a.shimName) {
      var i :| 0 <= i < |a.files| && key == FileAnnotation(a.shimName, i);
      PayloadKeysApart(a.shimName, i, b.shimName);
    }
    if a.shimName != b.shimName && key in PlanPayload(b) {
      PayloadKeyShape(b, key);
      if key != HelperConfAnnotation(b.shimName) {
        var j :| 0 <= j < |b.files| && key == FileAnnotation(b.shimName, j);
        PayloadKeysApart(b.shimName, j, a.shimName);
        if key != HelperConfAnnotation(a.shimName) {
          var i :| 0 <= i < |a.files| && key == FileAnnotation(a.shimName, i);
          FileAnnotationInjective(a.shimName, i, b.shimName, j);
        }
      }
      assert false;
    }
  }

  function Payloads(plans: seq<Plan>): map<string, string>
  {
    if plans == [] then map[] else Payloads(plans[..|plans| - 1]) + PlanPayload(plans[|plans| - 1])
  }

  /** With distinct shim names every plan's payload survives in the union. */
  lemma {:induction false} PayloadSurvives(plans: seq<Plan>, k: nat, key: string)
    requires DistinctShims(plans) && k < |plans| && key in PlanPayload(plans[k])
    ensures key in Payloads(plans) && Payloads(plans)[key] == PlanPayload(plans[k])[key]
  {
    hide PlanPayload;
    var n := |plans| - 1;
    if k < n {
      PayloadSurvives(plans[..n], k, key);
      PayloadsDisjoint(plans[k], plans[n], key);
    }
  }

  lemma {:induction false} PayloadsAvoid(plans: seq<Plan>, key: string)
    requires key in {STATUS_ANNOTATION, SHIMS_ANNOTATION, CONTAINERS_ANNOTATION}
    ensures key !in Payloads(plans)
  {
    hide PlanPayload;
    if plans != [] {
      PayloadsAvoid(plans[..|plans| - 1], key);
      var last := plans[|plans| - 1];
      if key in PlanPayload(last) {
        PayloadsDisjoint(last, last, key);
      }
    }
  }

  lemma {:induction false} PayloadsSnoc(plans: seq<Plan>, plan: Plan)
    ensures Payloads(plans + [plan]) == Payloads(plans) + PlanPayload(plan)
  {
    hide PlanPayload;
    assert (plans + [plan])[..|plans|] == plans;
  }

  lemma MergeAssociative(a: map<string, string>, b: map<string, string>, c: map<string, string>)
    ensures (a + b) + c == a + (b + c)
  {
  }

  /** The loop writes the payloads of the applied plans and nothing else. */
  lemma {:induction false} RunWritesPayloads(existing: nat, s: Progress, plans: seq<Plan>)
    requires s.applied == []
    ensures Run(existing, s, plans).pod.annotations
            == s.pod.annotations + Payloads(Run(existing, s, plans).applied)
  {
    assert s.applied == [] ==> s.pod.annotations + Payloads([]) == s.pod.annotations;
    if plans != [] {
      hide Step, Refusal, ResolveTargets, InjectAll, NewVolumes, WritePayload, PlanPayload, Payloads;
      RunWritesPayloads(existing, s, plans[..|plans| - 1]);
      var here, plan := Run(existing, s, plans[..|plans| - 1]), plans[|plans| - 1];
      StepPod(existing, here, plan);
      StepApplied(existing, here, plan);
      PayloadAdds(here.pod.annotations, plan);
      PayloadsSnoc(here.applied, plan);
      MergeAssociative(s.pod.annotations, Payloads(here.applied), PlanPayload(plan));
    }
  }

  function Bookkeeping(applied: seq<Plan>): map<string, string>
  {
    map[STATUS_ANNOTATION := STATUS_INJECTED][SHIMS_ANNOTATION := Join(ShimKeys(applied), ",")]
  }

  lemma NoShimsDistinct()
    ensures DistinctShims([])
  {
  }

  /** All annotations after the call: the old ones, the payloads, and two bookkeeping entries. */
  lemma ApplyAnnotations(pod: PodState, plans: seq<Plan>)
    requires Apply(pod, plans).applied != []
    ensures Apply(pod, plans).pod.annotations
            == pod.annotations + Payloads(Apply(pod, plans).applied) + Bookkeeping(Apply(pod, plans).applied)
    ensures DistinctShims(Apply(pod, plans).applied)
  {
    hide Run, Payloads, MapBytes, Helpers, DistinctShims, Join;
    assert Helpers([]) == [];
    assert DistinctShims([]) by { NoShimsDistinct(); }
    var existing := MapBytes(pod.annotations);
    RunWritesPayloads(existing, Start(pod), plans);
    AppliedShimsDistinct(existing, Start(pod), plans);
  }

  /* ---------- byte accounting ---------- */

  function FileKeyBytes(plan: Plan, n: nat): nat
  {
    if n == 0 then 0 else FileKeyBytes(plan, n - 1) + |FileAnnotation(plan.shimName, n - 1)|
  }

  function KeyBytes(plan: Plan): nat
  {
    |HelperConfAnnotation(plan.shimName)| + FileKeyBytes(plan, |plan.files|)
  }

  function TotalRendered(plans: seq<Plan>): nat
  {
    if plans == [] then 0 else TotalRendered(plans[..|plans| - 1]) + RenderedBytes(plans[|plans| - 1])
  }

  function TotalKeyBytes(plans: seq<Plan>): nat
  {
    if plans == [] then 0 else TotalKeyBytes(plans[..|plans| - 1]) + KeyBytes(plans[|plans| - 1])
  }

  function Overwritten(m: map<string, string>, b: map<string, string>): map<string, string>
  {
    map k | k in m && k in b :: m[k]
  }

  lemma OverwrittenSplit(a: map<string, string>, b: map<string, string>, k: string)
    requires k in b
    ensures a + b == (a + (b - {k}))[k := b[k]]
    ensures k !in Overwritten(a, b - {k})
    ensures Overwritten(a, b)
            == if k in a then Overwritten(a, b - {k})[k := a[k]] else Overwritten(a, b - {k})
  {
  }

  /** Merging maps: the bytes of the result and of what was overwritten balance the inputs. */
  lemma {:induction false} MergeBytes(a: map<string, string>, b: map<string, string>)
    ensures MapBytes(a + b) + MapBytes(Overwritten(a, b)) == MapBytes(a) + MapBytes(b)
    decreases |b|
  {
    MapBytesEmpty();
    hide MapBytes;
    if b == map[] {
      assert a + b == a && Overwritten(a, b) == map[];
    } else {
      var k :| k in b;
      var c := b - {k};
      MergeBytes(a, c);
      MapBytesTake(b, k);
      OverwrittenSplit(a, b, k);
      hide Overwritten;
      MapBytesSet(a + c, k, b[k]);
      if k in a {
        MapBytesSet(Overwritten(a, c), k, a[k]);
      }
    }
  }

  lemma MapBytesEmpty()
    ensures MapBytes(map[]) == 0
  {
  }

  lemma {:induction false} FileKeyIsNew(m: map<string, string>, plan: Plan, n: nat)
    requires n < |plan.files| && FileAnnotation(plan.shimName, n) !in m
    ensures FileAnnotation(plan.shimName, n) !in WriteFiles(m, plan, n)
  {
    hide FileAnnotation;
    var key := FileAnnotation(plan.shimName, n);
    WriteFilesKeys(m, plan, n, key);
    forall i | 0 <= i < n ensures key != FileAnnotation(plan.shimName, i) {
      FileAnnotationInjective(plan.shimName, i, plan.shimName, n);
    }
  }

  lemma ContentSnoc(plan: Plan, n: nat)
    requires n < |plan.files|
    ensures ContentBytes(plan.files[..n + 1]) == ContentBytes(plan.files[..n]) + |plan.files[n].content|
  {
    assert plan.files[..n + 1][..n] == plan.files[..n];
  }

  lemma {:induction false} WriteFilesBytes(m: map<string, string>, plan: Plan, n: nat)
    requires n <= |plan.files|
    requires forall i :: 0 <= i < n ==> FileAnnotation(plan.shimName, i) !in m
    ensures MapBytes(WriteFiles(m, plan, n)) == MapBytes(m) + FileKeyBytes(plan, n) + ContentBytes(plan.files[..n])
  {
    hide MapBytes, FileAnnotation, ContentBytes;
    if n == 0 {
      NoContent(plan);
    } else {
      WriteFilesBytes(m, plan, n - 1);
      FileKeyIsNew(m, plan, n - 1);
      ContentSnoc(plan, n - 1);
      MapBytesSet(WriteFiles(m, plan, n - 1), FileAnnotation(plan.shimName, n - 1), plan.files[n - 1].content);
    }
  }

  lemma NoContent(plan: Plan)
    ensures ContentBytes(plan.files[..0]) == 0
  {
  }

  lemma PayloadBytes(plan: Plan)
    ensures MapBytes(PlanPayload(plan)) == RenderedBytes(plan) + KeyBytes(plan)
  {
    var conf := HelperConfAnnotation(plan.shimName);
    var m := map[][conf := plan.helperConf];
    forall i | 0 <= i < |plan.files| ensures FileAnnotation(plan.shimName, i) !in m {
      PayloadKeysApart(plan.shimName, i, plan.shimName);
    }
    MapBytesEmpty();
    hide HelperConfAnnotation, FileAnnotation, MapBytes;
    MapBytesSet(map[], conf, plan.helperConf);
    WriteFilesBytes(m, plan, |plan.files|);
    assert plan.files[..|plan.files|] == plan.files;
  }

  lemma {:induction false} PayloadsBytes(plans: seq<Plan>)
    requires DistinctShims(plans)
    ensures MapBytes(Payloads(plans)) == TotalRendered(plans) + TotalKeyBytes(plans)
  {
    MapBytesEmpty();
    if plans != [] {
      hide PlanPayload, RenderedBytes, KeyBytes, MapBytes, Overwritten;
      var n := |plans| - 1;
      var front, last := plans[..n], plans[n];
      PayloadsBytes(front);
      PayloadBytes(last);
      MergeBytes(Payloads(front), PlanPayload(last));
      NothingOverwritten(front, last);
    }
  }

  lemma {:induction false} NothingOverwritten(plans: seq<Plan>, other: Plan)
    requires forall i :: 0 <= i < |plans| ==> plans[i].shimName != other.shimName
    ensures Overwritten(Payloads(plans), PlanPayload(other)) == map[]
  {
    hide PlanPayload, Payloads;
    forall key | key in PlanPayload(other) ensures key !in Payloads(plans) {
      PayloadsWithout(plans, other, key);
    }
  }

  lemma {:induction false} PayloadsWithout(plans: seq<Plan>, other: Plan, key: string)
    requires forall i :: 0 <= i < |plans| ==> plans[i].shimName != other.shimName
    requires key in PlanPayload(other)
    ensures key !in Payloads(plans)
  {
    if plans != [] {
      hide PlanPayload;
      PayloadsWithout(plans[..|plans| - 1], other, key);
      PayloadsDisjoint(other, plans[|plans| - 1], key);
    }
  }

  /** The running count is exactly the rendered bytes of the plans applied so far. */
  lemma {:induction false} AddedBytesExact(existing: nat, s: Progress, plans: seq<Plan>)
    requires s.addedBytes == TotalRendered(s.applied)
    requires s.applied != [] ==> existing + s.addedBytes <= MAX_POD_ANNOTATION_BYTES
    ensures var r := Run(existing, s, plans);
            && r.addedBytes == TotalRendered(r.applied)
            && (r.applied != [] ==> existing + r.addedBytes <= MAX_POD_ANNOTATION_BYTES)
  {
    if plans != [] {
      hide Step, Refusal, RenderedBytes;
      AddedBytesExact(existing, s, plans[..|plans| - 1]);
      var here, plan := Run(existing, s, plans[..|plans| - 1]), plans[|plans| - 1];
      StepBytes(existing, here, plan);
      StepApplied(existing, here, plan);
      assert (here.applied + [plan])[..|here.applied|] == here.applied;
    }
  }

  lemma WithinBudget(pod: PodState, plans: seq<Plan>)
    requires Apply(pod, plans).applied != []
    ensures MapBytes(pod.annotations) + TotalRendered(Apply(pod, plans).applied) <= MAX_POD_ANNOTATION_BYTES
  {
    NothingRendered();
    hide Run, MapBytes, TotalRendered, Finish;
    AddedBytesExact(MapBytes(pod.annotations), Start(pod), plans);
  }

  lemma NothingRendered()
    ensures TotalRendered([]) == 0
  {
  }

  /**
    The account of a call that applied something: old bytes plus rendered content stay within
    the budget, and the final size is exactly old bytes plus content, plus the keys added, plus
    the two bookkeeping entries, minus the entries that were overwritten.
   */
  lemma AnnotationAccount(pod: PodState, plans: seq<Plan>)
    requires Apply(pod, plans).applied != []
    ensures var out := Apply(pod, plans);
            var added := Payloads(out.applied) + Bookkeeping(out.applied);
            && MapBytes(pod.annotations) + TotalRendered(out.applied) <= MAX_POD_ANNOTATION_BYTES
            && MapBytes(out.pod.annotations) + MapBytes(Overwritten(pod.annotations, added))
               == MapBytes(pod.annotations) + TotalRendered(out.applied) + TotalKeyBytes(out.applied)
                  + MapBytes(Bookkeeping(out.applied))
  {
    MapBytesEmpty();
    hide Apply, Payloads, Bookkeeping, MapBytes, Overwritten;
    var out := Apply(pod, plans);
    var payloads, books := Payloads(out.applied), Bookkeeping(out.applied);
    WithinBudget(pod, plans);
    ApplyAnnotations(pod, plans);
    PayloadsBytes(out.applied);
    BooksApart(out.applied);
    MergeBytes(payloads, books);
    MergeBytes(pod.annotations, payloads + books);
    assert pod.annotations + payloads + books == pod.annotations + (payloads + books);
  }

  lemma {:induction false} BooksApart(applied: seq<Plan>)
    ensures Overwritten(Payloads(applied), Bookkeeping(applied)) == map[]
  {
    PayloadsAvoid(applied, STATUS_ANNOTATION);
    PayloadsAvoid(applied, SHIMS_ANNOTATION);
  }

  /** The corollary the design relies on: nothing beyond content, keys and bookkeeping is added. */
  lemma AnnotationBound(pod: PodState, plans: seq<Plan>)
    requires Apply(pod, plans).applied != []
    ensures var out := Apply(pod, plans);
            MapBytes(out.pod.annotations)
            <= MAX_POD_ANNOTATION_BYTES + TotalKeyBytes(out.applied) + MapBytes(Bookkeeping(out.applied))
  {
    hide Apply, Bookkeeping, Payloads, TotalKeyBytes, TotalRendered;
    AnnotationAccount(pod, plans);
  }

  /** The API server refuses an object whose annotations are larger than this, keys included. */
  const MAX_OBJECT_ANNOTATION_BYTES := 256 * 1024

  /** The final size, from the pod before the call and the applied plans. */
  ghost predicate WithinObjectLimit(pod: PodState, applied: seq<Plan>)
  {
    MapBytes(pod.annotations) + TotalRendered(applied) + TotalKeyBytes(applied) + MapBytes(Bookkeeping(applied))
    <= MAX_OBJECT_ANNOTATION_BYTES
       + MapBytes(Overwritten(pod.annotations, Payloads(applied) + Bookkeeping(applied)))
  }

  /**
    Whether the headroom suffices: the finished pod stays within the API server's limit exactly
    when content, keys and bookkeeping together, less what they overwrite, fit into it.
   */
  lemma AnnotationLimitExact(pod: PodState, plans: seq<Plan>)
    requires Apply(pod, plans).applied != []
    ensures MapBytes(Apply(pod, plans).pod.annotations) <= MAX_OBJECT_ANNOTATION_BYTES
            <==> WithinObjectLimit(pod, Apply(pod, plans).applied)
  {
    hide Apply, Bookkeeping, Payloads, TotalKeyBytes, TotalRendered, MapBytes, Overwritten;
    AnnotationAccount(pod, plans);
  }

  /** So the 64 KiB between the two limits are enough whenever keys and bookkeeping fit into them. */
  lemma HeadroomSuffices(pod: PodState, plans: seq<Plan>)
    requires Apply(pod, plans).applied != []
    requires var applied := Apply(pod, plans).applied;
             TotalKeyBytes(applied) + MapBytes(Bookkeeping(applied))
             <= MAX_OBJECT_ANNOTATION_BYTES - MAX_POD_ANNOTATION_BYTES
    ensures MapBytes(Apply(pod, plans).pod.annotations) <= MAX_OBJECT_ANNOTATION_BYTES
  {
    hide Apply, Bookkeeping, TotalKeyBytes, MapBytes;
    AnnotationBound(pod, plans);
  }
}
