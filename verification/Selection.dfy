/**
  Which shims a pod is matched by: opt-in enrollment through a comma list, or label selectors.
 */
module Selection {
  import opened Text
  import opened Keys
  import opened Params
  import opened Specs

  /** The pod and, when they exist, the objects it belongs to. */
  datatype Target = Target(pod: Metadata, serviceAccount: Option<Metadata>, namespace: Option<Metadata>)

  function EnrollmentValue(m: map<string, string>): string
  {
    if ENROLLMENT_KEY in m then m[ENROLLMENT_KEY] else ""
  }

  predicate Enrolls(shimName: string, m: Metadata)
  {
    || shimName in CommaNames(EnrollmentValue(m.annotations))
    || shimName in CommaNames(EnrollmentValue(m.labels))
  }

  /** Enrolling through comma lists, in the annotation, the label or both, enrolls into exactly the named shims. */
  lemma {:induction false} EnrollmentListExact(shimName: string, annotated: seq<string>, labelled: seq<string>,
                                               m: Metadata)
    requires forall i :: 0 <= i < |annotated| ==> CommaSafe(annotated[i])
    requires forall i :: 0 <= i < |labelled| ==> CommaSafe(labelled[i])
    requires EnrollmentValue(m.annotations) == Join(annotated, ",") && EnrollmentValue(m.labels) == Join(labelled, ",")
    ensures Enrolls(shimName, m) <==> shimName in annotated || shimName in labelled
  {
    CommaListRoundTrip(annotated);
    CommaListRoundTrip(labelled);
    hide CommaNames;
  }

  predicate Enabled(toggle: Option<bool>) { toggle.None? || toggle.value }

  predicate Enrolled(shimName: string, enrollment: Option<Enrollment>, t: Target)
  {
    var e := if enrollment.Some? then enrollment.value else Enrollment(None, None, None);
    || (Enabled(e.namespaces) && t.namespace.Some? && Enrolls(shimName, t.namespace.value))
    || (Enabled(e.serviceAccounts) && t.serviceAccount.Some? && Enrolls(shimName, t.serviceAccount.value))
    || (Enabled(e.pods) && Enrolls(shimName, t.pod))
  }

  /** The object's annotation or label names the shim in its list. */
  predicate NamesShim(m: Metadata, shimName: string)
  {
    var key := "oidcshim.kemo.dev/shim";
    || (key in m.annotations && shimName in CommaNames(m.annotations[key]))
    || (key in m.labels && shimName in CommaNames(m.labels[key]))
  }

  lemma EnrollsExact(shimName: string, m: Metadata)
    ensures Enrolls(shimName, m) <==> NamesShim(m, shimName)
  {
    assert ENROLLMENT_KEY == "oidcshim.kemo.dev/shim";
    EmptyListNamesNothing();
    hide CommaNames;
  }

  lemma EmptyListNamesNothing()
    ensures CommaNames("") == []
  {
    CommaListLaws("", "", "", "");
  }

  /** The three kinds of object, each with its toggle: off only when it is set to false. */
  predicate ConsultsNamespaces(e: Option<Enrollment>) { e.Some? ==> e.value.namespaces != Some(false) }
  predicate ConsultsServiceAccounts(e: Option<Enrollment>) { e.Some? ==> e.value.serviceAccounts != Some(false) }
  predicate ConsultsPods(e: Option<Enrollment>) { e.Some? ==> e.value.pods != Some(false) }

  /** Object by object: what decides for one object when neither of the others names the shim. */
  lemma EnrolledExact(shimName: string, e: Option<Enrollment>, t: Target)
    ensures var ns := t.namespace.Some? && NamesShim(t.namespace.value, shimName);
            var sa := t.serviceAccount.Some? && NamesShim(t.serviceAccount.value, shimName);
            var pod := NamesShim(t.pod, shimName);
            && (!ns && !sa && !pod ==> !Enrolled(shimName, e, t))
            && (ns && !sa && !pod ==> (Enrolled(shimName, e, t) <==> ConsultsNamespaces(e)))
            && (!ns && sa && !pod ==> (Enrolled(shimName, e, t) <==> ConsultsServiceAccounts(e)))
            && (!ns && !sa && pod ==> (Enrolled(shimName, e, t) <==> ConsultsPods(e)))
            && (Enrolled(shimName, e, t)
                <==> (ns && ConsultsNamespaces(e)) || (sa && ConsultsServiceAccounts(e)) || (pod && ConsultsPods(e)))
  {
    EnrollsExact(shimName, t.pod);
    if t.namespace.Some? {
      EnrollsExact(shimName, t.namespace.value);
    }
    if t.serviceAccount.Some? {
      EnrollsExact(shimName, t.serviceAccount.value);
    }
    hide Enrolls, NamesShim;
  }

  /** A set selector with the labels of the object it applies to, if that object exists. */
  datatype Compiled = Compiled(selector: LabelSelector, labels: Option<map<string, string>>)

  function LabelsOf(m: Option<Metadata>): Option<map<string, string>>
  {
    if m.Some? then Some(m.value.labels) else None
  }

  function OneSelector(selector: Option<LabelSelector>, m: Option<Metadata>): seq<Compiled>
  {
    if selector.Some? then [Compiled(selector.value, LabelsOf(m))] else []
  }

  function SetSelectors(sel: SelectionSpec, t: Target): seq<Compiled>
  {
    OneSelector(sel.namespaceSelector, t.namespace)
    + OneSelector(sel.serviceAccountSelector, t.serviceAccount)
    + OneSelector(sel.podSelector, Some(t.pod))
  }

  predicate SelectorOk(s: Option<LabelSelector>) { s.None? || s.value.valid }

  predicate SelectorsValid(sel: SelectionSpec)
  {
    SelectorOk(sel.namespaceSelector) && SelectorOk(sel.serviceAccountSelector) && SelectorOk(sel.podSelector)
  }

  predicate Selects(c: Compiled) { c.labels.Some? && c.selector.matches(c.labels.value) }

  /** None stands for the error of a selector that does not compile. */
  function Matches(shimName: string, sel: SelectionSpec, t: Target): Option<bool>
  {
    if !SelectorsValid(sel) then None
    else
      var set' := SetSelectors(sel, t);
      Some(Enrolled(shimName, sel.enrollment, t)
           || (set' != [] && forall i :: 0 <= i < |set'| ==> Selects(set'[i])))
  }

  /** The loop over compiled selectors, with its early returns. */
  method MatchTarget(shimName: string, sel: SelectionSpec, t: Target) returns (r: Option<bool>)
    ensures r == Matches(shimName, sel, t)
  {
    if !SelectorsValid(sel) {
      return None;
    }
    if Enrolled(shimName, sel.enrollment, t) {
      return Some(true);
    }
    var compiled := SetSelectors(sel, t);
    hide SetSelectors, Enrolled;
    var matched := false;
    for i := 0 to |compiled|
      invariant matched == (i > 0)
      invariant forall j :: 0 <= j < i ==> Selects(compiled[j])
    {
      if !Selects(compiled[i]) {
        return Some(false);
      }
      matched := true;
    }
    r := Some(matched);
  }

  /** A selector that is not set asks for nothing; one that is set asks for an object with such labels. */
  predicate Meets(selector: Option<LabelSelector>, m: Option<Metadata>)
  {
    selector.Some? ==> m.Some? && selector.value.matches(m.value.labels)
  }

  /** Selector by selector: an error exactly when one does not compile, else enrolled or all met. */
  lemma MatchesExact(shimName: string, sel: SelectionSpec, t: Target)
    ensures var r := Matches(shimName, sel, t);
            var ns, sa, pod := sel.namespaceSelector, sel.serviceAccountSelector, sel.podSelector;
            && (r.None? <==> (ns.Some? && !ns.value.valid) || (sa.Some? && !sa.value.valid)
                             || (pod.Some? && !pod.value.valid))
            && (r.Some? ==>
                  (r.value <==> || Enrolled(shimName, sel.enrollment, t)
                                || (&& (ns.Some? || sa.Some? || pod.Some?)
                                    && Meets(ns, t.namespace) && Meets(sa, t.serviceAccount)
                                    && Meets(pod, Some(t.pod)))))
  {
    hide Enrolled;
    var ns, sa, pod := sel.namespaceSelector, sel.serviceAccountSelector, sel.podSelector;
    var a, b, c := OneSelector(ns, t.namespace), OneSelector(sa, t.serviceAccount), OneSelector(pod, Some(t.pod));
    OneSelectorMeets(ns, t.namespace);
    OneSelectorMeets(sa, t.serviceAccount);
    OneSelectorMeets(pod, Some(t.pod));
    AllOf(a, b, c);
    hide Selects, Meets;
  }

  lemma OneSelectorMeets(selector: Option<LabelSelector>, m: Option<Metadata>)
    ensures var one := OneSelector(selector, m);
            (forall i :: 0 <= i < |one| ==> Selects(one[i])) <==> Meets(selector, m)
  {
    if selector.Some? {
      assert OneSelector(selector, m)[0] == Compiled(selector.value, LabelsOf(m));
    }
  }

  lemma AllOf(a: seq<Compiled>, b: seq<Compiled>, c: seq<Compiled>)
    ensures (forall i :: 0 <= i < |a + b + c| ==> Selects((a + b + c)[i]))
            <==> && (forall i :: 0 <= i < |a| ==> Selects(a[i])) && (forall i :: 0 <= i < |b| ==> Selects(b[i]))
                 && (forall i :: 0 <= i < |c| ==> Selects(c[i]))
  {
    hide Selects;
    var all := a + b + c;
    assert forall i :: 0 <= i < |a| ==> a[i] == all[i];
    assert forall i :: 0 <= i < |b| ==> b[i] == all[|a| + i];
    assert forall i :: 0 <= i < |c| ==> c[i] == all[|a| + |b| + i];
  }

  function ToLower(c: char): char
  {
    if 'A' <= c <= 'Z' then (c as int + 32) as char else c
  }

  /** The pod annotation that opts out: "false", whatever the case and the white space around it. */
  predicate OptedOut(annotations: map<string, string>)
  {
    INJECT_ANNOTATION in annotations &&
    (var value := TrimSpace(annotations[INJECT_ANNOTATION]);
     |value| == 5 && forall i :: 0 <= i < 5 ==> ToLower(value[i]) == "false"[i])
  }

  /** The word "false", letter by letter in either case. */
  predicate FalseWord(w: string)
  {
    && |w| == 5 && w[0] in {'f', 'F'} && w[1] in {'a', 'A'} && w[2] in {'l', 'L'} && w[3] in {'s', 'S'}
    && w[4] in {'e', 'E'}
  }

  ghost predicate SaysFalse(value: string)
  {
    exists word :: FalseWord(word) && Padded(value, word)
  }

  lemma FalseWordExact(w: string)
    ensures FalseWord(w) <==> |w| == 5 && forall i :: 0 <= i < 5 ==> ToLower(w[i]) == "false"[i]
    ensures FalseWord(w) ==> Trimmed(w)
  {
    var f := "false";
    assert f[0] == 'f' && f[1] == 'a' && f[2] == 'l' && f[3] == 's' && f[4] == 'e';
    if |w| == 5 && forall i :: 0 <= i < 5 ==> ToLower(w[i]) == f[i] {
      assert ToLower(w[0]) == f[0] && ToLower(w[1]) == f[1] && ToLower(w[2]) == f[2] && ToLower(w[3]) == f[3]
             && ToLower(w[4]) == f[4];
    }
  }

  /** Opting out: the annotation says "false", in any case and with any white space around it. */
  lemma OptedOutExact(annotations: map<string, string>)
    ensures OptedOut(annotations)
            <==> "oidcshim.kemo.dev/inject" in annotations && SaysFalse(annotations["oidcshim.kemo.dev/inject"])
  {
    assert INJECT_ANNOTATION == "oidcshim.kemo.dev/inject";
    if INJECT_ANNOTATION in annotations {
      var value := annotations[INJECT_ANNOTATION];
      FalseWordExact(TrimSpace(value));
      var pre, post := TrimSpaceParts(value);
      PartsPadded(pre, TrimSpace(value), post);
      hide FalseWord, TrimSpace, ToLower;
      if SaysFalse(value) {
        var word :| FalseWord(word) && Padded(value, word);
        FalseWordExact(word);
        PaddedTrims(value, word);
      }
    }
  }

  lemma PartsPadded(pre: string, word: string, post: string)
    requires AllSpace(pre) && AllSpace(post)
    ensures Padded(pre + word + post, word)
  {
    var s, i, j := pre + word + post, |pre|, |pre| + |word|;
    assert s[..i] == pre && s[j..] == post && s[i..j] == word;
  }
}
