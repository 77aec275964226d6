/**
  The controller's side: one reconcile validates the spec, counts the labelled pods page by page
  and writes the status only when it changed.  Over any run of spec edits and reconciles, with
  counts and status updates that may fail, the stored status means what it says.
 */
module Reconcile {
  import opened Text
  import opened Specs
  import opened Validation

  /* ---------- conditions ---------- */

  const CONDITION_READY := "Ready"
  const REASON_VALID := "Valid"
  const REASON_INVALID_SPEC := "InvalidSpec"

  datatype Condition = Condition(
    kind: string,
    status: bool,
    reason: string,
    message: seq<ShimProblem>,
    observedGeneration: nat,
    lastTransition: nat)

  datatype Status = Status(conditions: seq<Condition>, observedGeneration: nat, matchedPods: Option<int>)

  function FindCondition(cs: seq<Condition>, kind: string): (r: Option<nat>)
    ensures r.None? <==> forall i :: 0 <= i < |cs| ==> cs[i].kind != kind
    ensures r.Some? ==> r.value < |cs| && cs[r.value].kind == kind
                        && forall i :: 0 <= i < r.value ==> cs[i].kind != kind
  {
    if cs == [] then None
    else if cs[0].kind == kind then Some(0)
    else
      match FindCondition(cs[1..], kind)
      case None => None
      case Some(i) => Some(i + 1)
  }

  /** meta.SetStatusCondition: the transition time moves only when the status flips. */
  function SetCondition(cs: seq<Condition>, new': Condition): seq<Condition>
  {
    match FindCondition(cs, new'.kind)
    case None => cs + [new']
    case Some(i) =>
      cs[i := if cs[i].status != new'.status then new' else new'.(lastTransition := cs[i].lastTransition)]
  }

  function ReadyCondition(spec: ShimSpec, name: string, generation: nat, now: nat): Condition
  {
    var problems := ShimProblems(spec, name);
    Condition(CONDITION_READY, problems == [], if problems == [] then REASON_VALID else REASON_INVALID_SPEC,
              problems, generation, now)
  }

  /* ---------- counting pods, page by page ---------- */

  /** One page of the uncached list: how many pods it holds, or a failed request. */
  datatype Page = Items(count: nat) | ListFailed

  /** int32(count) in two's complement. */
  function WrapInt32(n: nat): int
  {
    var m := n % 0x1_0000_0000;
    if m < 0x8000_0000 then m else m - 0x1_0000_0000
  }

  function Total(pages: seq<Page>): nat
    requires forall i :: 0 <= i < |pages| ==> pages[i].Items?
  {
    if pages == [] then 0 else Total(pages[..|pages| - 1]) + pages[|pages| - 1].count
  }

  function CountPods(pages: seq<Page>): Option<int>
  {
    if forall i :: 0 <= i < |pages| ==> pages[i].Items? then Some(WrapInt32(Total(pages))) else None
  }

  /** The loop follows continuation tokens; `pages` is what the API server answers, in order. */
  method CountMatchedPods(pages: seq<Page>) returns (r: Option<int>)
    requires pages != []
    ensures r == CountPods(pages)
  {
    var count := 0;
    var i := 0;
    while true
      invariant 0 <= i < |pages|
      invariant forall j :: 0 <= j < i ==> pages[j].Items?
      invariant count == Total(pages[..i])
      decreases |pages| - i
    {
      if pages[i].ListFailed? {
        return None;
      }
      assert pages[..i + 1][..i] == pages[..i];
      count := count + pages[i].count;
      i := i + 1;
      if i == |pages| {
        assert pages[..i] == pages;
        return Some(WrapInt32(count));
      }
    }
  }

  /** Totals add up page by page. */
  lemma {:induction false} TotalAdds(pages: seq<Page>, more: seq<Page>)
    requires forall i :: 0 <= i < |pages| ==> pages[i].Items?
    requires forall i :: 0 <= i < |more| ==> more[i].Items?
    ensures Total(pages + more) == Total(pages) + Total(more)
    ensures |more| == 1 ==> Total(more) == more[0].count
  {
    var all := pages + more;
    if more == [] {
      assert all == pages;
    } else {
      var n := |more| - 1;
      TotalAdds(pages, more[..n]);
      assert all[..|all| - 1] == pages + more[..n];
    }
  }

  /** The reported number is an int32 congruent to the number of pods, and that number below 2^31. */
  lemma {:induction false} CountFaithful(pages: seq<Page>)
    requires forall i :: 0 <= i < |pages| ==> pages[i].Items?
    ensures CountPods(pages) == Some(Total(pages)) <==> Total(pages) < 0x8000_0000
    ensures CountPods(pages).Some? && -0x8000_0000 <= CountPods(pages).value < 0x8000_0000
    ensures (Total(pages) - CountPods(pages).value) % 0x1_0000_0000 == 0
  {
  }

  /* ---------- one reconcile ---------- */

  datatype Object = Object(name: string, spec: ShimSpec, generation: nat, status: Status)

  /** The status this reconcile wants stored; a failed count keeps the previous number. */
  function Desired(o: Object, count: Option<int>, now: nat): Status
  {
    Status(SetCondition(o.status.conditions, ReadyCondition(o.spec, o.name, o.generation, now)),
           o.generation,
           if count.Some? then count else o.status.matchedPods)
  }

  predicate Writes(o: Object, count: Option<int>, now: nat)
  {
    Desired(o, count, now) != o.status
  }

  datatype Outcome = RequeueLater | UpdateError | CountError

  /** `accepted` says whether the API server takes the status update, if one is sent. */
  function ReconcileOnce(o: Object, count: Option<int>, now: nat, accepted: bool): (Object, Outcome)
  {
    if Writes(o, count, now) && !accepted then (o, UpdateError)
    else (o.(status := Desired(o, count, now)), if count.None? then CountError else RequeueLater)
  }

  class ShimObject {
    const name: string
    var spec: ShimSpec
    var generation: nat
    var status: Status

    constructor (o: Object)
      ensures View() == o
    {
      name, spec, generation, status := o.name, o.spec, o.generation, o.status;
    }

    function View(): Object
      reads this
    {
      Object(name, spec, generation, status)
    }
  }

  /** The in-memory status is filled in field by field, then compared and perhaps sent. */
  method ReconcileShim(shim: ShimObject, pages: seq<Page>, now: nat, accepted: bool)
    returns (outcome: Outcome, wrote: bool)
    requires pages != []
    modifies shim`status
    ensures var r := ReconcileOnce(old(shim.View()), CountPods(pages), now, accepted);
            outcome == r.1 && shim.View() == r.0
    ensures wrote == (Writes(old(shim.View()), CountPods(pages), now) && accepted)
  {
    hide ShimProblems, CountPods, SetCondition;
    var before := shim.status;
    var problems := ValidateShim(shim.spec, shim.name);
    var condition := Condition(CONDITION_READY, true, REASON_VALID, [], shim.generation, now);
    if problems != [] {
      condition := condition.(status := false, reason := REASON_INVALID_SPEC, message := problems);
    }
    var status := before.(conditions := SetCondition(before.conditions, condition));
    status := status.(observedGeneration := shim.generation);
    var count := CountMatchedPods(pages);
    if count.Some? {
      status := status.(matchedPods := count);
    }
    wrote := false;
    if status != before {
      if !accepted {
        return UpdateError, false;
      }
      shim.status := status;
      wrote := true;
    }
    outcome := if count.None? then CountError else RequeueLater;
  }

  /* ---------- what one reconcile stores ---------- */

  function Ready(s: Status): Option<Condition>
  {
    var i := FindCondition(s.conditions, CONDITION_READY);
    if i.None? then None else Some(s.conditions[i.value])
  }

  lemma {:induction false} FindAfterAppend(cs: seq<Condition>, c: Condition)
    requires FindCondition(cs, c.kind).None?
    ensures FindCondition(cs + [c], c.kind) == Some(|cs|)
  {
    assert (cs + [c])[|cs|] == c;
    var r := FindCondition(cs + [c], c.kind);
    assert forall i :: 0 <= i < |cs| ==> (cs + [c])[i] == cs[i];
  }

  lemma FindAfterUpdate(cs: seq<Condition>, i: nat, c: Condition)
    requires FindCondition(cs, c.kind) == Some(i)
    ensures FindCondition(cs[i := c], c.kind) == Some(i)
  {
    var ds := cs[i := c];
    assert ds[i].kind == c.kind;
    var r := FindCondition(ds, c.kind);
    assert r.Some?;
    assert forall j :: 0 <= j < i ==> ds[j] == cs[j];
  }

  /** The condition found afterwards is the new one, and every other kind is untouched. */
  lemma SetConditionStores(cs: seq<Condition>, c: Condition)
    ensures var ds := SetCondition(cs, c);
            && FindCondition(ds, c.kind).Some?
            && (var d := ds[FindCondition(ds, c.kind).value]; d == c.(lastTransition := d.lastTransition))
            && |cs| <= |ds|
            && (forall i :: 0 <= i < |cs| && cs[i].kind != c.kind ==> ds[i] == cs[i])
            && (forall i :: 0 <= i < |cs| ==> ds[i].kind == cs[i].kind)
  {
    var at := FindCondition(cs, c.kind);
    if at.None? {
      FindAfterAppend(cs, c);
    } else {
      FindAfterUpdate(cs, at.value, SetCondition(cs, c)[at.value]);
    }
  }

  /** The place of the first condition of that kind, or the end of the list. */
  predicate PlaceOf(cs: seq<Condition>, kind: string, at: nat)
  {
    && at <= |cs| && (at < |cs| ==> cs[at].kind == kind)
    && forall i :: 0 <= i < at ==> cs[i].kind != kind
  }

  /** The list with the condition of that kind replaced, or added at the end; the rest stays. */
  predicate OnlyAt(cs: seq<Condition>, at: nat, ds: seq<Condition>)
    requires at <= |cs|
  {
    && |ds| == (if at < |cs| then |cs| else |cs| + 1)
    && forall i :: 0 <= i < |cs| && i != at ==> ds[i] == cs[i]
  }

  /** What the Ready condition says about this object; its time is kept while the status stays. */
  predicate Says(d: Condition, o: Object, now: nat, before: Option<Condition>)
  {
    && d.kind == "Ready" && d.observedGeneration == o.generation
    && (d.status <==> ValidShim(o.spec, o.name))
    && d.reason == (if d.status then "Valid" else "InvalidSpec")
    && d.message == ShimProblems(o.spec, o.name)
    && d.lastTransition == if before.Some? && before.value.status == d.status then before.value.lastTransition else now
  }

  /** The status that describes the object, written over the one it had. */
  ghost predicate Describes(s: Status, o: Object, count: Option<int>, now: nat)
  {
    var cs := o.status.conditions;
    && s.observedGeneration == o.generation
    && (count.Some? ==> s.matchedPods == count) && (count.None? ==> s.matchedPods == o.status.matchedPods)
    && exists at: nat :: && PlaceOf(cs, "Ready", at) && OnlyAt(cs, at, s.conditions)
                    && Says(s.conditions[at], o, now, if at < |cs| then Some(cs[at]) else None)
  }

  lemma DesiredDescribes(o: Object, count: Option<int>, now: nat)
    ensures Describes(Desired(o, count, now), o, count, now)
  {
    ShimProblemsExact(o.spec, o.name);
    hide ShimProblems, ValidShim;
    var cs := o.status.conditions;
    var place := FindCondition(cs, CONDITION_READY);
    var at := if place.Some? then place.value else |cs|;
    assert PlaceOf(cs, "Ready", at) && OnlyAt(cs, at, Desired(o, count, now).conditions);
  }

  lemma DescribesOnce(a: Status, b: Status, o: Object, count: Option<int>, now: nat)
    requires Describes(a, o, count, now) && Describes(b, o, count, now)
    ensures a == b
  {
    hide ShimProblems, ValidShim;
    var cs := o.status.conditions;
    var i: nat :| PlaceOf(cs, "Ready", i) && OnlyAt(cs, i, a.conditions)
             && Says(a.conditions[i], o, now, if i < |cs| then Some(cs[i]) else None);
    var j: nat :| PlaceOf(cs, "Ready", j) && OnlyAt(cs, j, b.conditions)
             && Says(b.conditions[j], o, now, if j < |cs| then Some(cs[j]) else None);
    assert i == j;
    assert a.conditions == b.conditions;
  }

  /**
    One reconcile touches nothing but the status.  It fails to update exactly when the stored
    status does not describe the object and the update is not taken, and then leaves everything as
    it was; otherwise the status describes the object, and a failed count is what is reported.
   */
  lemma ReconcileExact(o: Object, count: Option<int>, now: nat, accepted: bool)
    ensures var r := ReconcileOnce(o, count, now, accepted);
            && r.0.name == o.name && r.0.spec == o.spec && r.0.generation == o.generation
            && (r.1 == UpdateError <==> !accepted && !Describes(o.status, o, count, now))
            && (r.1 == UpdateError ==> r.0 == o)
            && (r.1 != UpdateError ==> Describes(r.0.status, o, count, now) && (r.1 == CountError <==> count.None?))
  {
    hide Describes, Desired;
    DesiredDescribes(o, count, now);
    if Describes(o.status, o, count, now) {
      DescribesOnce(o.status, Desired(o, count, now), o, count, now);
    }
  }

  lemma DesiredReady(o: Object, count: Option<int>, now: nat)
    ensures var s := Desired(o, count, now);
            && Ready(s).Some?
            && (Ready(s).value.status <==> ValidShim(o.spec, o.name))
            && Ready(s).value.reason == (if Ready(s).value.status then "Valid" else "InvalidSpec")
            && Ready(s).value.observedGeneration == s.observedGeneration == o.generation
            && Ready(s).value.message == ShimProblems(o.spec, o.name)
  {
    hide ShimProblems, ValidShim, SetCondition;
    ShimProblemsExact(o.spec, o.name);
    SetConditionStores(o.status.conditions, ReadyCondition(o.spec, o.name, o.generation, now));
  }

  /* ---------- unchanged inputs write nothing ---------- */

  lemma SetConditionAgain(cs: seq<Condition>, c: Condition, now: nat)
    ensures SetCondition(SetCondition(cs, c), c.(lastTransition := now)) == SetCondition(cs, c)
  {
    var ds := SetCondition(cs, c);
    var at := FindCondition(cs, c.kind);
    if at.None? {
      FindAfterAppend(cs, c);
      assert ds[|cs| := c] == ds;
    } else {
      FindAfterUpdate(cs, at.value, ds[at.value]);
      assert ds[at.value := ds[at.value]] == ds;
    }
  }

  /** Right after a stored reconcile, another one with the same spec and count has nothing to write. */
  lemma Quiescent(o: Object, count: Option<int>, now: nat, later: nat, again: Option<int>)
    requires again == count || again.None?
    ensures var o' := o.(status := Desired(o, count, now));
            !Writes(o', again, later) && ReconcileOnce(o', again, later, false).0 == o'
  {
    hide ShimProblems, SetCondition;
    SetConditionAgain(o.status.conditions, ReadyCondition(o.spec, o.name, o.generation, now), later);
  }

  /* ---------- whole runs ---------- */

  datatype Event = Edited(spec: ShimSpec) | Reconciled(count: Option<int>, now: nat, accepted: bool)

  function Next(o: Object, e: Event): Object
  {
    match e
    case Edited(spec) => o.(spec := spec, generation := o.generation + 1)
    case Reconciled(count, now, accepted) => ReconcileOnce(o, count, now, accepted).0
  }

  function Run(o: Object, events: seq<Event>): Object
  {
    if events == [] then o else Next(Run(o, events[..|events| - 1]), events[|events| - 1])
  }

  /** The spec every generation had, over a run. */
  function History(o: Object, events: seq<Event>): map<nat, ShimSpec>
  {
    if events == [] then map[o.generation := o.spec]
    else
      var before := History(o, events[..|events| - 1]);
      var e := events[|events| - 1];
      if e.Edited? then before[Run(o, events).generation := e.spec] else before
  }

  /** The last count a reconcile got that the API server stored. */
  function LastCount(o: Object, events: seq<Event>): Option<int>
  {
    if events == [] then o.status.matchedPods
    else
      var front, e := events[..|events| - 1], events[|events| - 1];
      if e.Reconciled? && e.count.Some? && (e.accepted || !Writes(Run(o, front), e.count, e.now)) then e.count
      else LastCount(o, front)
  }

  /** The stored status speaks truly about the generation it names, or nothing was stored yet. */
  ghost predicate Truthful(o: Object, history: map<nat, ShimSpec>)
  {
    && o.generation in history && history[o.generation] == o.spec
    && (forall g :: g in history ==> g <= o.generation)
    && (Ready(o.status).Some? ==>
          var c := Ready(o.status).value;
          && c.observedGeneration == o.status.observedGeneration && c.observedGeneration in history
          && (c.status <==> ValidShim(history[c.observedGeneration], o.name))
          && c.reason == (if c.status then "Valid" else "InvalidSpec"))
  }

  lemma TruthfulEdit(o: Object, history: map<nat, ShimSpec>, spec: ShimSpec)
    requires Truthful(o, history)
    ensures Truthful(Next(o, Edited(spec)), history[o.generation + 1 := spec])
  {
    hide ValidShim;
  }

  lemma TruthfulReconcile(o: Object, history: map<nat, ShimSpec>, count: Option<int>, now: nat, accepted: bool)
    requires Truthful(o, history)
    ensures Truthful(Next(o, Reconciled(count, now, accepted)), history)
  {
    hide ValidShim, Desired, Ready;
    DesiredReady(o, count, now);
  }

  /**
    Whole-run truth: after any run of edits and reconciles from a fresh object, with any counts
    and any rejected updates, a stored Ready condition is True exactly when the validator accepts
    the spec of the generation it observed, and the pod count is the last one that was stored.
   */
  lemma {:induction false} StatusTruthful(o: Object, events: seq<Event>)
    requires Ready(o.status).None?
    ensures Truthful(Run(o, events), History(o, events))
    ensures Run(o, events).status.matchedPods == LastCount(o, events)
  {
    hide ValidShim, Ready, SetCondition, ReadyCondition;
    if events != [] {
      var front, e := events[..|events| - 1], events[|events| - 1];
      StatusTruthful(o, front);
      var here := Run(o, front);
      match e
      case Edited(spec) => TruthfulEdit(here, History(o, front), spec);
      case Reconciled(count, now, accepted) =>
        hide Truthful;
        TruthfulReconcile(here, History(o, front), count, now, accepted);
    }
  }

  /** Once a reconcile of the current generation is stored, readiness is exactly validity. */
  lemma ReadyAfterReconcile(o: Object, count: Option<int>, now: nat)
    ensures var o' := ReconcileOnce(o, count, now, true).0;
            && Ready(o'.status).Some? && o'.status.observedGeneration == o.generation
            && (Ready(o'.status).value.status <==> ValidShim(o.spec, o.name))
  {
    hide ValidShim, Desired, Ready;
    DesiredReady(o, count, now);
  }
}
