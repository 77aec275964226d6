/**
  The laws of a validated parameter list: nothing is ever overwritten, a parameter solves its own
  equation over the final values exactly when it does not print the whole map, the order of the
  list is visible exactly through such parameters, and resolution fails on a template exactly
  when an expression it evaluates has no kind.
 */
module Equations {
  import opened Text
  import opened Templates
  import opened Params

  /* ---------- the run, one parameter at a time ---------- */

  function Before(inp: Input, ps: seq<Parameter>, i: nat): Result<Values>
    requires i <= |ps|
  {
    ResolveFrom(inp, ps[..i], BuiltinValues(inp.builtins))
  }

  lemma {:induction false} ResolveSnoc(inp: Input, ps: seq<Parameter>, p: Parameter, v: Values)
    ensures ResolveFrom(inp, ps + [p], v)
            == match ResolveFrom(inp, ps, v)
               case Err(e) => Err(e)
               case Ok(w) =>
                 match ParameterValue(inp, p, w)
                 case Err(e) => Err(e)
                 case Ok(x) => Ok(w[p.name := x])
    decreases ps
  {
    hide ParameterValue;
    var all := ps + [p];
    if ps == [] {
      assert all[1..] == [];
    } else {
      assert all[0] == ps[0] && all[1..] == ps[1..] + [p];
      match ParameterValue(inp, ps[0], v)
      case Err(_) =>
      case Ok(x) => ResolveSnoc(inp, ps[1..], p, v[ps[0].name := x]);
    }
  }

  lemma BeforeNext(inp: Input, ps: seq<Parameter>, i: nat)
    requires i < |ps|
    ensures Before(inp, ps, i + 1)
            == match Before(inp, ps, i)
               case Err(e) => Err(e)
               case Ok(w) =>
                 match ParameterValue(inp, ps[i], w)
                 case Err(e) => Err(e)
                 case Ok(x) => Ok(w[ps[i].name := x])
  {
    hide ParameterValue, ResolveFrom;
    ResolveSnoc(inp, ps[..i], ps[i], BuiltinValues(inp.builtins));
    assert ps[..i + 1] == ps[..i] + [ps[i]];
  }

  lemma BeforeAll(inp: Input)
    ensures Before(inp, inp.parameters, |inp.parameters|) == Resolve(inp)
  {
    assert inp.parameters[..|inp.parameters|] == inp.parameters;
  }

  /** If the run gets past parameter j it got past every earlier one. */
  lemma {:induction false} BeforeOk(inp: Input, ps: seq<Parameter>, i: nat, j: nat)
    requires i <= j <= |ps| && Before(inp, ps, j).Ok?
    ensures Before(inp, ps, i).Ok?
    decreases j - i
  {
    hide Before, ParameterValue;
    if i < j {
      BeforeNext(inp, ps, j - 1);
      BeforeOk(inp, ps, i, j - 1);
    }
  }

  /** The defined keys are the builtins and the names resolved so far. */
  lemma {:induction false} BeforeKeys(inp: Input, ps: seq<Parameter>, i: nat)
    requires i <= |ps| && Before(inp, ps, i).Ok?
    ensures Before(inp, ps, i).value.Keys == BuiltinSet() + NamesOf(ps[..i])
  {
    if i == 0 {
      assert ps[..0] == [];
      NoNames();
    } else {
      hide ParameterValue, NamesOf, Before;
      BeforeNext(inp, ps, i - 1);
      BeforeKeys(inp, ps, i - 1);
      NamesSnoc(ps[..i - 1], ps[i - 1]);
      assert ps[..i] == ps[..i - 1] + [ps[i - 1]];
    }
  }

  lemma SubmapTransitive(u: Values, v: Values, w: Values)
    requires Submap(u, v) && Submap(v, w)
    ensures Submap(u, w)
  {
  }

  /** In a valid list no builtin and no earlier parameter is ever overwritten. */
  lemma {:induction false} NothingOverwritten(inp: Input, ps: seq<Parameter>, i: nat, j: nat)
    requires Valid(ps) && i <= j <= |ps| && Before(inp, ps, j).Ok?
    ensures Before(inp, ps, i).Ok? && Submap(Before(inp, ps, i).value, Before(inp, ps, j).value)
    ensures i < j ==> Before(inp, ps, i).value != Before(inp, ps, j).value
    decreases j - i
  {
    hide Before, ParameterValue, NamesOf;
    if i < j {
      BeforeOk(inp, ps, j - 1, j);
      BeforeNext(inp, ps, j - 1);
      BeforeKeys(inp, ps, j - 1);
      assert ValidAt(ps, j - 1);
      NothingOverwritten(inp, ps, i, j - 1);
      var v, w := Before(inp, ps, j - 1).value, Before(inp, ps, j).value;
      var name := ps[j - 1].name;
      assert name !in v && name in w;
      SubmapTransitive(Before(inp, ps, i).value, v, w);
    }
  }

  lemma BuiltinsKept(inp: Input, ps: seq<Parameter>, i: nat)
    requires Valid(ps) && i <= |ps| && Before(inp, ps, i).Ok?
    ensures Submap(BuiltinValues(inp.builtins), Before(inp, ps, i).value)
    ensures Before(inp, ps, i).value != map[]
  {
    hide ParameterValue;
    NothingOverwritten(inp, ps, 0, i);
    assert ps[..0] == [];
    var b := BuiltinValues(inp.builtins);
    var k :| k in b;
    assert k in Before(inp, ps, i).value;
  }

  /* ---------- equations ---------- */

  /** The one kind of template whose value depends on keys it does not name. */
  predicate ShowsAllValues(p: Parameter, v: Values)
  {
    && OnlySource(p.source)
    && p.source.template.Parsed?
    && ShowsRoot(p.source.template.root, Root, v)
  }

  lemma {:induction false} ShownIsNotEmpty(n: Node, dot: Val, v: Values)
    requires ShowsRoot(n, dot, v) && Render(n, dot, v).Some?
    ensures Render(n, dot, v).value != ""
  {
    match n
    case Action(e) =>
    case If(cond, thn, els) =>
      if Truth(Eval(cond, dot, v).value, v) {
        ShownIsNotEmpty(thn, dot, v);
      } else {
        ShownIsNotEmpty(els, dot, v);
      }
    case With(subject, body, els) =>
      if Truth(Eval(subject, dot, v).value, v) {
        ShownIsNotEmpty(body, Eval(subject, dot, v).value, v);
      } else {
        ShownIsNotEmpty(els, dot, v);
      }
    case Then(first, second) =>
      if ShowsRoot(first, dot, v) {
        ShownIsNotEmpty(first, dot, v);
      } else {
        ShownIsNotEmpty(second, dot, v);
      }
  }

  /** A source other than a template does not look at the values at all. */
  lemma OnlyTemplatesLook(inp: Input, p: Parameter, v: Values, w: Values)
    requires OnlySource(p.source) && p.source.template.Empty?
    ensures ParameterValue(inp, p, v) == ParameterValue(inp, p, w)
  {
    hide FirstPresent;
  }

  lemma {:induction false} TemplateValue(inp: Input, p: Parameter, v: Values)
    requires OnlySource(p.source) && p.source.template.Parsed?
    ensures var r := Render(p.source.template.root, Root, v);
            && (r.None? ==> ParameterValue(inp, p, v) == Err(TemplateError(p.name)))
            && (r.Some? && r.value != "" ==> ParameterValue(inp, p, v) == Ok(r.value))
            && (r == Some("") ==> ParameterValue(inp, p, v)
                                  == if p.default.Some? then Ok(p.default.value)
                                     else if p.required then Err(MissingParameter(p.name)) else Ok(""))
  {
    hide Render;
  }

  /** Whether a parameter shows the map is settled by the keys it names. */
  lemma ShowsSettled(p: Parameter, v: Values, w: Values)
    requires RefersOnlyTo(p.source.template, v.Keys) && v != map[] && Submap(v, w)
    ensures ShowsAllValues(p, v) == ShowsAllValues(p, w)
  {
    if p.source.template.Parsed? {
      var k :| k in v;
      assert w != map[];
      Coincidence(p.source.template.root, Root, v, w);
    }
  }

  /** A parameter that does not show the map has the same value over any larger map. */
  lemma ReevaluateSame(inp: Input, p: Parameter, v: Values, w: Values)
    requires OnlySource(p.source) && RefersOnlyTo(p.source.template, v.Keys)
    requires v != map[] && Submap(v, w) && !ShowsAllValues(p, v)
    ensures ParameterValue(inp, p, w) == ParameterValue(inp, p, v)
  {
    hide ParameterValue, Render, ShowsRoot;
    if p.source.template.Parsed? {
      var root := p.source.template.root;
      var k :| k in v;
      assert w != map[] && Agree(v, w, Visits(root));
      TemplateValue(inp, p, v);
      TemplateValue(inp, p, w);
      Coincidence(root, Root, v, w);
    } else {
      OnlyTemplatesLook(inp, p, v, w);
    }
  }

  /** Re-evaluating one parameter over a proper extension of the values it saw. */
  lemma ReevaluateExact(inp: Input, p: Parameter, v: Values, w: Values)
    requires OnlySource(p.source) && RefersOnlyTo(p.source.template, v.Keys)
    requires v != map[] && Submap(v, w) && v != w && ParameterValue(inp, p, v).Ok?
    ensures ParameterValue(inp, p, w) == ParameterValue(inp, p, v) <==> !ShowsAllValues(p, v)
  {
    hide ParameterValue, Render, ShowsRoot;
    if !ShowsAllValues(p, v) {
      ReevaluateSame(inp, p, v, w);
    } else {
      var root := p.source.template.root;
      assert Agree(v, w, Visits(root));
      ShownValue(inp, p, v);
      var k :| k in v;
      assert w != map[];
      ShowsSettled(p, v, w);
      Coincidence(root, Root, v, w);
      ShownValue(inp, p, w);
      CoincidenceExact(root, v, w);
    }
  }

  /** The value of a parameter that shows the map is the text it renders. */
  lemma {:induction false} ShownValue(inp: Input, p: Parameter, v: Values)
    requires ShowsAllValues(p, v)
    ensures ParameterValue(inp, p, v)
            == match Render(p.source.template.root, Root, v)
               case None => Err(TemplateError(p.name))
               case Some(text) => Ok(text)
  {
    hide ParameterValue;
    TemplateValue(inp, p, v);
    if Render(p.source.template.root, Root, v).Some? {
      ShownIsNotEmpty(p.source.template.root, Root, v);
    }
  }

  /** Parameter i, over the values it sees when it is resolved, prints all of them. */
  predicate PrintsMap(inp: Input, ps: seq<Parameter>, i: nat)
    requires i < |ps|
  {
    Before(inp, ps, i).Ok? && ShowsAllValues(ps[i], Before(inp, ps, i).value)
  }

  /** What is known when parameter i of a validated list is reached and resolved. */
  lemma SeenBy(inp: Input, ps: seq<Parameter>, i: nat)
    requires Valid(ps) && i < |ps| && Before(inp, ps, |ps|).Ok?
    ensures Before(inp, ps, i).Ok?
    ensures var v, final := Before(inp, ps, i).value, Before(inp, ps, |ps|).value;
            && v.Keys == BuiltinSet() + NamesOf(ps[..i]) && v != map[]
            && RefersOnlyTo(ps[i].source.template, v.Keys) && OnlySource(ps[i].source)
            && Submap(v, final) && v != final
            && ps[i].name in final && ParameterValue(inp, ps[i], v) == Ok(final[ps[i].name])
  {
    hide Before, ParameterValue, NamesOf, RefersOnlyTo, OnlySource, BuiltinValues;
    NothingOverwritten(inp, ps, i, |ps|);
    NothingOverwritten(inp, ps, i + 1, |ps|);
    BeforeNext(inp, ps, i);
    BeforeKeys(inp, ps, i);
    BuiltinsKept(inp, ps, i);
    assert ValidAt(ps, i);
  }

  /**
    The result solves its own equations: every parameter of a validated list has, in the final
    map, exactly the value its definition gives over that final map, if and only if its template
    did not print the whole map when it was resolved.
   */
  lemma EquationsSolved(inp: Input, i: nat)
    requires Valid(inp.parameters) && Resolve(inp).Ok? && i < |inp.parameters|
    ensures var final, p := Resolve(inp).value, inp.parameters[i];
            && p.name in final
            && (ParameterValue(inp, p, final) == Ok(final[p.name]) <==> !PrintsMap(inp, inp.parameters, i))
  {
    BeforeAll(inp);
    hide Before, Resolve, ParameterValue, NamesOf, ShowsAllValues, RefersOnlyTo, OnlySource, BuiltinValues, Valid;
    SeenBy(inp, inp.parameters, i);
    ReevaluateExact(inp, inp.parameters[i], Before(inp, inp.parameters, i).value, Resolve(inp).value);
  }

  function ElseDefault(p: Parameter): string { if p.default.Some? then p.default.value else "" }

  /** The value annotations or labels give: the nearest object's, else the default, else nothing. */
  function Nearest(key: string, pod: map<string, string>, sa: map<string, string>, ns: map<string, string>,
                   otherwise: string): string
  {
    if key in pod then pod[key] else if key in sa then sa[key] else if key in ns then ns[key] else otherwise
  }

  lemma {:induction false} NearestFound(key: string, maps: seq<map<string, string>>, otherwise: string)
    requires |maps| == 3
    ensures Nearest(key, maps[0], maps[1], maps[2], otherwise)
            == if FirstPresent(key, maps).Some? then FirstPresent(key, maps).value else otherwise
  {
    FirstOfThree(key, maps);
    hide FirstPresent;
  }

  /**
    What every parameter of a validated list ends up with, source by source: the constant; the
    nearest object's annotation or label; the ConfigMap's entry under the given key; the rendered
    template; and where there is none of these, the default, else the empty text.
   */
  lemma ValuesBySource(inp: Input, i: nat)
    requires Valid(inp.parameters) && Resolve(inp).Ok? && i < |inp.parameters|
    ensures var v, p, l := Resolve(inp).value, inp.parameters[i], inp.lookup;
            var src := p.source;
            && p.name in v
            && (src.constant.Some? ==> v[p.name] == src.constant.value)
            && (src.annotation != "" ==>
                  v[p.name] == Nearest(src.annotation, l.pod.annotations, l.serviceAccount.annotations,
                                       l.namespace.annotations, ElseDefault(p)))
            && (src.lbl != "" ==>
                  v[p.name] == Nearest(src.lbl, l.pod.labels, l.serviceAccount.labels, l.namespace.labels,
                                       ElseDefault(p)))
            && (src.configMap.Some? ==>
                  && inp.getConfigMap.Some?
                  && match inp.getConfigMap.value(inp.configMapNamespace, src.configMap.value.name)
                     case ReadFailed => false
                     case Missing => v[p.name] == ElseDefault(p)
                     case Data(entries) =>
                       v[p.name] == if src.configMap.value.key in entries then entries[src.configMap.value.key]
                                    else ElseDefault(p))
            && (src.template.Parsed? ==>
                  && Before(inp, inp.parameters, i).Ok?
                  && (var text := Render(src.template.root, Root, Before(inp, inp.parameters, i).value);
                      text.Some? && v[p.name] == if text.value != "" then text.value else ElseDefault(p)))
  {
    BeforeAll(inp);
    hide Before, Resolve, NamesOf, BuiltinValues, Valid, RefersOnlyTo, Render;
    SeenBy(inp, inp.parameters, i);
    var p := inp.parameters[i];
    NearestFound(p.source.annotation, AnnotationMaps(inp.lookup), ElseDefault(p));
    NearestFound(p.source.lbl, LabelMaps(inp.lookup), ElseDefault(p));
    hide FirstPresent;
  }

  /** No builtin is lost and the final keys are exactly the builtins and the parameter names. */
  lemma FinalKeys(inp: Input)
    requires Valid(inp.parameters) && Resolve(inp).Ok?
    ensures Submap(BuiltinValues(inp.builtins), Resolve(inp).value)
    ensures Resolve(inp).value.Keys == BuiltinSet() + NamesOf(inp.parameters)
  {
    hide Resolve, ResolveFrom, NamesOf, BuiltinValues;
    BeforeAll(inp);
    BuiltinsKept(inp, inp.parameters, |inp.parameters|);
    BeforeKeys(inp, inp.parameters, |inp.parameters|);
    assert inp.parameters[..|inp.parameters|] == inp.parameters;
  }

  /* ---------- order independence ---------- */

  predicate SameMembers(ps: seq<Parameter>, qs: seq<Parameter>)
  {
    multiset(ps) == multiset(qs)
  }

  lemma MemberOfPermutation(ps: seq<Parameter>, qs: seq<Parameter>, j: nat) returns (i: nat)
    requires SameMembers(ps, qs) && j < |qs|
    ensures i < |ps| && ps[i] == qs[j]
  {
    assert qs[j] in multiset(qs);
    assert qs[j] in ps;
    i :| 0 <= i < |ps| && ps[i] == qs[j];
  }

  lemma SameNames(ps: seq<Parameter>, qs: seq<Parameter>)
    requires SameMembers(ps, qs)
    ensures NamesOf(ps) == NamesOf(qs)
  {
    forall x | x in NamesOf(ps) ensures x in NamesOf(qs) {
      var i :| 0 <= i < |ps| && ps[i].name == x;
      var j := MemberOfPermutation(qs, ps, i);
    }
    forall x | x in NamesOf(qs) ensures x in NamesOf(ps) {
      var i :| 0 <= i < |qs| && qs[i].name == x;
      var j := MemberOfPermutation(ps, qs, i);
    }
  }

  /** Every parameter that prints the whole map comes after the same names in both lists. */
  ghost predicate SamePredecessors(inp: Input, ps: seq<Parameter>, qs: seq<Parameter>)
  {
    forall i, j :: 0 <= i < |ps| && 0 <= j < |qs| && ps[i] == qs[j] && PrintsMap(inp, ps, i) ==>
                     NamesOf(ps[..i]) == NamesOf(qs[..j])
  }

  lemma SameKeysSameMap(v: Values, w: Values, whole: Values)
    requires Submap(v, whole) && Submap(w, whole) && v.Keys == w.Keys
    ensures v == w
  {
    assert forall k :: k in v.Keys <==> k in w.Keys;
  }

  /** One step of the replay: over values the first run ended with, a parameter gets its value again. */
  lemma StepRetraces(inp: Input, ps: seq<Parameter>, i: nat, w: Values)
    requires Valid(ps) && i < |ps| && Before(inp, ps, |ps|).Ok?
    requires w != map[] && RefersOnlyTo(ps[i].source.template, w.Keys) && Submap(w, Before(inp, ps, |ps|).value)
    requires PrintsMap(inp, ps, i) ==> w.Keys == BuiltinSet() + NamesOf(ps[..i])
    ensures var final := Before(inp, ps, |ps|).value;
            ps[i].name in final && ParameterValue(inp, ps[i], w) == Ok(final[ps[i].name])
  {
    hide Before, ParameterValue, NamesOf, RefersOnlyTo, OnlySource, ShowsAllValues, Valid;
    SeenBy(inp, ps, i);
    var p, v, final := ps[i], Before(inp, ps, i).value, Before(inp, ps, |ps|).value;
    if PrintsMap(inp, ps, i) {
      SameKeysSameMap(v, w, final);
    } else {
      ReevaluateSame(inp, p, v, final);
      ShowsSettled(p, v, final);
      ShowsSettled(p, w, final);
      ReevaluateSame(inp, p, w, final);
    }
  }

  /** Replaying a permutation retraces the first run: every intermediate map is part of its result. */
  lemma {:induction false} PermutationRetraces(inp: Input, ps: seq<Parameter>, qs: seq<Parameter>, j: nat)
    requires Valid(ps) && Before(inp, ps, |ps|).Ok?
    requires Valid(qs) && SameMembers(ps, qs) && SamePredecessors(inp, ps, qs) && j <= |qs|
    ensures Before(inp, qs, j).Ok? && Submap(Before(inp, qs, j).value, Before(inp, ps, |ps|).value)
  {
    hide Before, ParameterValue, NamesOf, RefersOnlyTo, OnlySource, BuiltinValues, SameMembers, PrintsMap;
    if j == 0 {
      BeforeStart(inp, qs);
      BuiltinsKept(inp, ps, |ps|);
    } else {
      PermutationRetraces(inp, ps, qs, j - 1);
      BeforeNext(inp, qs, j - 1);
      BeforeKeys(inp, qs, j - 1);
      BuiltinsKept(inp, qs, j - 1);
      assert ValidAt(qs, j - 1);
      var i := MemberOfPermutation(ps, qs, j - 1);
      StepRetraces(inp, ps, i, Before(inp, qs, j - 1).value);
    }
  }

  lemma BeforeStart(inp: Input, qs: seq<Parameter>)
    ensures Before(inp, qs, 0) == Ok(BuiltinValues(inp.builtins))
  {
    assert qs[..0] == [];
  }

  lemma PermutationResolves(inp: Input, ps: seq<Parameter>, qs: seq<Parameter>)
    requires Valid(ps) && Before(inp, ps, |ps|).Ok? && Valid(qs) && SameMembers(ps, qs) && SamePredecessors(inp, ps, qs)
    ensures Before(inp, qs, |qs|) == Before(inp, ps, |ps|)
  {
    hide Before, Valid, SameMembers, NamesOf, SamePredecessors;
    PermutationRetraces(inp, ps, qs, |qs|);
    BeforeKeys(inp, qs, |qs|);
    BeforeKeys(inp, ps, |ps|);
    assert qs[..|qs|] == qs && ps[..|ps|] == ps;
    SameNames(ps, qs);
    SameKeysSameMap(Before(inp, qs, |qs|).value, Before(inp, ps, |ps|).value, Before(inp, ps, |ps|).value);
  }

  /** The names the resource schema admits: letters, digits and underscores, so no colon. */
  predicate Identifier(s: string)
  {
    s != "" && !('0' <= s[0] <= '9')
    && forall i :: 0 <= i < |s| ==> 'A' <= s[i] <= 'Z' || 'a' <= s[i] <= 'z' || '0' <= s[i] <= '9' || s[i] == '_'
  }

  predicate Identifiers(ps: seq<Parameter>)
  {
    forall i :: 0 <= i < |ps| ==> Identifier(ps[i].name)
  }

  lemma KeysColonFree(ps: seq<Parameter>, i: nat, v: Values)
    requires Identifiers(ps) && i <= |ps| && v.Keys == BuiltinSet() + NamesOf(ps[..i])
    ensures ColonFree(v)
  {
    forall k | k in v ensures ':' !in k {
      if k in NamesOf(ps[..i]) {
        var n :| 0 <= n < i && ps[..i][n].name == k;
        assert Identifier(ps[n].name);
      } else {
        assert k in BUILTIN_KEYS;
      }
    }
  }

  lemma NamesFromKeys(a: set<string>, b: set<string>, builtins: set<string>)
    requires builtins + a == builtins + b && a !! builtins && b !! builtins
    ensures a == b
  {
    forall x | x in a ensures x in b { assert x in builtins + a; }
    forall x | x in b ensures x in a { assert x in builtins + b; }
  }

  lemma NamesNotBuiltin(ps: seq<Parameter>, i: nat)
    requires Valid(ps) && i <= |ps|
    ensures NamesOf(ps[..i]) !! BuiltinSet()
  {
    forall x | x in NamesOf(ps[..i]) ensures x !in BuiltinSet() {
      var n :| 0 <= n < i && ps[..i][n].name == x;
      assert ValidAt(ps, n);
    }
  }

  /** If two orders end alike, a parameter that printed the map printed the same map in both. */
  lemma EqualResultsEqualPredecessors(inp: Input, ps: seq<Parameter>, qs: seq<Parameter>, i: nat, j: nat)
    requires Valid(ps) && Valid(qs) && Identifiers(ps) && Identifiers(qs)
    requires Before(inp, ps, |ps|).Ok? && Before(inp, qs, |qs|) == Before(inp, ps, |ps|)
    requires i < |ps| && j < |qs| && ps[i] == qs[j] && PrintsMap(inp, ps, i)
    ensures NamesOf(ps[..i]) == NamesOf(qs[..j])
  {
    hide Before, ParameterValue, NamesOf, OnlySource, Valid, Identifiers, ColonFree, BuiltinSet, Render,
         ShowsRoot;
    SeenBy(inp, ps, i);
    SeenBy(inp, qs, j);
    var p, v, w, final := ps[i], Before(inp, ps, i).value, Before(inp, qs, j).value, Before(inp, ps, |ps|).value;
    ShowsSettled(p, v, final);
    ShowsSettled(p, w, final);
    ShownValue(inp, p, v);
    ShownValue(inp, p, w);
    KeysColonFree(ps, i, v);
    KeysColonFree(qs, j, w);
    assert Agree(v, w, Visits(p.source.template.root));
    ShownMapsDiffer(p.source.template.root, v, w, final);
    NamesNotBuiltin(ps, i);
    NamesNotBuiltin(qs, j);
    NamesFromKeys(NamesOf(ps[..i]), NamesOf(qs[..j]), BuiltinSet());
  }

  lemma IdentifiersPermuted(ps: seq<Parameter>, qs: seq<Parameter>)
    requires Identifiers(ps) && SameMembers(ps, qs)
    ensures Identifiers(qs)
  {
    hide Identifier;
    forall j | 0 <= j < |qs| ensures Identifier(qs[j].name) {
      var i := MemberOfPermutation(ps, qs, j);
    }
  }

  lemma OrderVisible(inp: Input, ps: seq<Parameter>, qs: seq<Parameter>)
    requires Valid(ps) && Valid(qs) && SameMembers(ps, qs) && Identifiers(ps) && Before(inp, ps, |ps|).Ok?
    ensures Before(inp, qs, |qs|) == Before(inp, ps, |ps|) <==> SamePredecessors(inp, ps, qs)
  {
    hide Before, NamesOf, Valid, SameMembers, PrintsMap, Identifiers;
    IdentifiersPermuted(ps, qs);
    if SamePredecessors(inp, ps, qs) {
      PermutationResolves(inp, ps, qs);
    } else if Before(inp, qs, |qs|) == Before(inp, ps, |ps|) {
      var i, j :| 0 <= i < |ps| && 0 <= j < |qs| && ps[i] == qs[j] && PrintsMap(inp, ps, i)
                  && NamesOf(ps[..i]) != NamesOf(qs[..j]);
      EqualResultsEqualPredecessors(inp, ps, qs, i, j);
    }
  }

  /** Only the parameter list differs, so each step is the same function. */
  lemma {:induction false} ListIrrelevant(inp: Input, qs: seq<Parameter>, ps: seq<Parameter>, v: Values)
    ensures ResolveFrom(inp.(parameters := qs), ps, v) == ResolveFrom(inp, ps, v)
    decreases ps
  {
    if ps != [] {
      hide RenderTemplate, FirstPresent;
      var x := ParameterValue(inp, ps[0], v);
      assert ParameterValue(inp.(parameters := qs), ps[0], v) == x;
      if x.Ok? {
        ListIrrelevant(inp, qs, ps[1..], v[ps[0].name := x.value]);
      }
    }
  }

  lemma ResolvedOver(inp: Input, qs: seq<Parameter>)
    ensures Resolve(inp.(parameters := qs)) == Before(inp, qs, |qs|)
  {
    hide ResolveFrom;
    ListIrrelevant(inp, qs, qs, BuiltinValues(inp.builtins));
    assert qs[..|qs|] == qs;
  }

  /**
    Order independence, exactly: two permutations of one list that both validate either both fail,
    or give the same result if and only if every parameter that printed the whole map, in the run
    that succeeded, comes after the same names in both.
   */
  lemma OrderIndependence(inp: Input, qs: seq<Parameter>)
    requires Valid(inp.parameters) && Valid(qs) && SameMembers(inp.parameters, qs) && Identifiers(inp.parameters)
    ensures var r, r' := Resolve(inp), Resolve(inp.(parameters := qs));
            && (r.Ok? ==> (r' == r <==> SamePredecessors(inp, inp.parameters, qs)))
            && (r'.Ok? ==> (r' == r <==> SamePredecessors(inp, qs, inp.parameters)))
  {
    var ps := inp.parameters;
    hide Before, Resolve, Valid, Identifiers, SamePredecessors;
    BeforeAll(inp);
    ResolvedOver(inp, qs);
    IdentifiersPermuted(ps, qs);
    if Before(inp, ps, |ps|).Ok? {
      OrderVisible(inp, ps, qs);
    }
    if Before(inp, qs, |qs|).Ok? {
      OrderVisible(inp, qs, ps);
    }
  }

  /** Statically, on every pod: the parameter's template cannot print the whole map. */
  predicate Scoped(p: Parameter)
  {
    p.source.template.Parsed? ==> NeverShowsRoot(p.source.template.root, MapKind)
  }

  predicate AllScoped(ps: seq<Parameter>)
  {
    forall i :: 0 <= i < |ps| ==> Scoped(ps[i])
  }

  lemma ScopedNeverPrints(inp: Input, ps: seq<Parameter>, i: nat)
    requires i < |ps| && Scoped(ps[i])
    ensures !PrintsMap(inp, ps, i)
  {
    hide Before, ShowsRoot;
    if PrintsMap(inp, ps, i) {
      NeverShowsSound(ps[i].source.template.root, Root, Before(inp, ps, i).value);
    }
  }

  /** So lists without such templates fail together or resolve alike, on every pod, in any order. */
  lemma ScopedOrderIndependence(inp: Input, qs: seq<Parameter>)
    requires Valid(inp.parameters) && Valid(qs) && SameMembers(inp.parameters, qs) && AllScoped(inp.parameters)
    ensures var r, r' := Resolve(inp), Resolve(inp.(parameters := qs));
            r.Ok? == r'.Ok? && (r.Ok? ==> r == r')
  {
    var ps := inp.parameters;
    hide Before, Resolve, Valid, PrintsMap, Scoped;
    forall i | 0 <= i < |ps| ensures !PrintsMap(inp, ps, i) {
      ScopedNeverPrints(inp, ps, i);
    }
    forall j | 0 <= j < |qs| ensures !PrintsMap(inp, qs, j) {
      var i := MemberOfPermutation(ps, qs, j);
      ScopedNeverPrints(inp, qs, j);
    }
    BeforeAll(inp);
    ResolvedOver(inp, qs);
    if Before(inp, ps, |ps|).Ok? {
      PermutationResolves(inp, ps, qs);
    } else if Before(inp, qs, |qs|).Ok? {
      PermutationResolves(inp, qs, ps);
    }
  }

  lemma {:induction false} ResolveTwo(inp: Input, p: Parameter, q: Parameter, v: Values, x: string, y: string)
    requires ParameterValue(inp, p, v) == Ok(x)
    requires ParameterValue(inp, q, v[p.name := x]) == Ok(y)
    ensures ResolveFrom(inp, [p, q], v) == Ok(v[p.name := x][q.name := y])
  {
    hide ParameterValue;
    var ps := [p, q];
    assert ps[1..] == [q] && [q][1..] == [];
    assert ResolveFrom(inp, [q], v[p.name := x]) == Ok(v[p.name := x][q.name := y]);
  }

  function ConstantOne(): Parameter { Parameter("a", Source(Some("1"), "", "", None, Empty), None, false) }
  function WholeMap(): Parameter { Parameter("t", Source(None, "", "", None, Parsed(Action(Dot))), None, false) }

  lemma WholeMapValue(inp: Input, v: Values)
    ensures ParameterValue(inp, WholeMap(), v) == Ok(PrintMap(v))
    ensures ParameterValue(inp, ConstantOne(), v) == Ok("1")
  {
    assert PrintMap(v) != "";
    hide PrintMap;
  }

  /** A template that prints the whole map makes the order visible. */
  lemma OrderVisibleThroughDot(inp: Input)
    requires inp.parameters == [ConstantOne(), WholeMap()]
    ensures var qs := [WholeMap(), ConstantOne()];
            && Valid(inp.parameters) && Valid(qs) && SameMembers(inp.parameters, qs)
            && Resolve(inp).Ok? && Resolve(inp.(parameters := qs)).Ok?
            && Resolve(inp) != Resolve(inp.(parameters := qs))
  {
    var a, t := ConstantOne(), WholeMap();
    var qs := [t, a];
    TwoValid(a, t);
    assert multiset([a, t]) == multiset{a, t} == multiset(qs);
    hide ParameterValue, ResolveFrom, Valid, PrintMap;
    var v := BuiltinValues(inp.builtins);
    var v1 := v["a" := "1"];
    assert "a" !in v by { assert "a" !in BUILTIN_KEYS; }
    LargerMapPrintsLonger(v, v1);
    WholeMapValue(inp, v);
    WholeMapValue(inp, v1);
    WholeMapValue(inp, v["t" := PrintMap(v)]);
    ResolveTwo(inp, a, t, v, "1", PrintMap(v1));
    ResolveTwo(inp, t, a, v, PrintMap(v), "1");
    ListIrrelevant(inp, qs, qs, v);
    assert v1["t" := PrintMap(v1)]["t"] != v["t" := PrintMap(v)]["a" := "1"]["t"];
  }

  lemma TwoValid(a: Parameter, t: Parameter)
    requires a.name == "a" && t.name == "t" && OnlySource(a.source) && OnlySource(t.source)
    requires a.source.template.Empty? && t.source.template == Parsed(Action(Dot))
    ensures Valid([a, t]) && Valid([t, a])
  {
    NoNames();
    hide OnlySource;
    var ps, qs := [a, t], [t, a];
    assert ps[..0] == [] && qs[..0] == [] && ps[..1] == [a] && qs[..1] == [t];
    assert NamesOf([a]) == {"a"} by { NamesSnoc([], a); assert [] + [a] == [a]; }
    assert NamesOf([t]) == {"t"} by { NamesSnoc([], t); assert [] + [t] == [t]; }
    assert forall k :: k !in Visits(Action(Dot));
    assert ValidAt(ps, 0) && ValidAt(ps, 1) && ValidAt(qs, 0) && ValidAt(qs, 1);
  }

  /* ---------- validated lists do not go wrong ---------- */

  /** Parameter i is reached, and some expression its template then evaluates has no kind. */
  predicate IllKindedAt(inp: Input, ps: seq<Parameter>, i: nat)
    requires i < |ps|
  {
    && Before(inp, ps, i).Ok?
    && ps[i].source.template.Parsed?
    && !KindedAlong(ps[i].source.template.root, Root, Before(inp, ps, i).value)
  }

  predicate InNoObject(key: string, pod: map<string, string>, sa: map<string, string>, ns: map<string, string>)
  {
    key !in pod && key !in sa && key !in ns
  }

  /** The source has no value to offer: no object has the key, or the template renders to nothing. */
  predicate YieldsNothing(inp: Input, p: Parameter, v: Values)
  {
    var src, l := p.source, inp.lookup;
    || (src.annotation != ""
        && InNoObject(src.annotation, l.pod.annotations, l.serviceAccount.annotations, l.namespace.annotations))
    || (src.lbl != "" && InNoObject(src.lbl, l.pod.labels, l.serviceAccount.labels, l.namespace.labels))
    || (src.configMap.Some? && inp.getConfigMap.Some?
        && match inp.getConfigMap.value(inp.configMapNamespace, src.configMap.value.name)
           case Missing => true
           case ReadFailed => false
           case Data(entries) => src.configMap.value.key !in entries)
    || (src.template.Parsed? && Render(src.template.root, Root, v) == Some(""))
  }

  lemma NothingExact(inp: Input, p: Parameter, v: Values)
    requires OnlySource(p.source)
    ensures ResolveOne(inp, p, v) == Ok(None) <==> YieldsNothing(inp, p, v)
  {
    hide Render;
    FirstOfThree(p.source.annotation, AnnotationMaps(inp.lookup));
    FirstOfThree(p.source.lbl, LabelMaps(inp.lookup));
    hide FirstPresent;
  }

  /** Parameter i is reached and cannot be read from a ConfigMap, or is required and has no value. */
  predicate UnavailableAt(inp: Input, ps: seq<Parameter>, i: nat, e: Error)
    requires i < |ps|
  {
    var p := ps[i];
    && Before(inp, ps, i).Ok?
    && match e
       case NoConfigMapGetter(name) => name == p.name && p.source.configMap.Some? && inp.getConfigMap.None?
       case ConfigMapReadError(name, configMap) =>
         && name == p.name && p.source.configMap.Some? && p.source.configMap.value.name == configMap
         && inp.getConfigMap.Some? && inp.getConfigMap.value(inp.configMapNamespace, configMap).ReadFailed?
       case TemplateError(_) => false
       case MissingParameter(name) =>
         name == p.name && p.required && p.default.None? && YieldsNothing(inp, p, Before(inp, ps, i).value)
  }

  lemma {:induction false} TemplateErrorExact(inp: Input, p: Parameter, v: Values)
    requires OnlySource(p.source) && RefersOnlyTo(p.source.template, v.Keys)
    ensures ParameterValue(inp, p, v) == Err(TemplateError(p.name))
            <==> p.source.template.Parsed? && !KindedAlong(p.source.template.root, Root, v)
    ensures ParameterValue(inp, p, v).Err? && ParameterValue(inp, p, v).error.TemplateError? ==>
              ParameterValue(inp, p, v).error.param == p.name
  {
    if p.source.template.Parsed? {
      TemplateValue(inp, p, v);
      RenderExact(p.source.template.root, Root, v);
    }
    hide Render, FirstPresent, KindedAlong;
  }

  lemma OtherErrorsExact(inp: Input, ps: seq<Parameter>, i: nat, e: Error)
    requires i < |ps| && OnlySource(ps[i].source) && Before(inp, ps, i).Ok? && !e.TemplateError?
    ensures ParameterValue(inp, ps[i], Before(inp, ps, i).value) == Err(e) <==> UnavailableAt(inp, ps, i, e)
  {
    hide Before, RenderTemplate, FirstPresent, YieldsNothing;
    NothingExact(inp, ps[i], Before(inp, ps, i).value);
  }

  /** The first parameter that fails is the one whose error is reported. */
  lemma FailureStays(inp: Input, ps: seq<Parameter>, i: nat)
    requires i < |ps| && Before(inp, ps, i).Ok? && Before(inp, ps, i + 1).Err?
    ensures Before(inp, ps, |ps|) == Before(inp, ps, i + 1)
  {
    FailureStaysTo(inp, ps, i, |ps|);
  }

  lemma {:induction false} FailureStaysTo(inp: Input, ps: seq<Parameter>, i: nat, j: nat)
    requires i < j <= |ps| && Before(inp, ps, i).Ok? && Before(inp, ps, i + 1).Err?
    ensures Before(inp, ps, j) == Before(inp, ps, i + 1)
  {
    hide Before, ParameterValue;
    if i + 1 < j {
      FailureStaysTo(inp, ps, i, j - 1);
      BeforeNext(inp, ps, j - 1);
    }
  }

  lemma {:induction false} FirstFailure(inp: Input, ps: seq<Parameter>, j: nat) returns (i: nat)
    requires j <= |ps| && Before(inp, ps, j).Err?
    ensures i < j && Before(inp, ps, i).Ok? && Before(inp, ps, i + 1).Err?
  {
    hide Before;
    BeforeStart(inp, ps);
    if Before(inp, ps, j - 1).Ok? {
      i := j - 1;
    } else {
      i := FirstFailure(inp, ps, j - 1);
    }
  }

  lemma ReachedKeys(inp: Input, ps: seq<Parameter>, i: nat)
    requires Valid(ps) && i < |ps| && Before(inp, ps, i).Ok?
    ensures OnlySource(ps[i].source) && RefersOnlyTo(ps[i].source.template, Before(inp, ps, i).value.Keys)
  {
    hide Before, NamesOf, RefersOnlyTo, OnlySource;
    BeforeKeys(inp, ps, i);
    assert ValidAt(ps, i);
  }

  /** A failure at a parameter that is reached is the failure of the whole run. */
  lemma FailsThere(inp: Input, ps: seq<Parameter>, i: nat, e: Error)
    requires i < |ps| && Before(inp, ps, i).Ok?
    ensures ParameterValue(inp, ps[i], Before(inp, ps, i).value) == Err(e) ==> Before(inp, ps, |ps|) == Err(e)
  {
    hide Before, ParameterValue;
    BeforeNext(inp, ps, i);
    if Before(inp, ps, i + 1).Err? {
      FailureStays(inp, ps, i);
    }
  }

  /**
    Validated lists do not go wrong, exactly: resolution reports a template error for a parameter
    if and only if that parameter is reached and evaluates an expression without a kind, and any
    other error if and only if a parameter that is reached is unavailable in the way it names.
   */
  lemma ResolveErrorsExact(inp: Input)
    requires Valid(inp.parameters)
    ensures forall name :: Resolve(inp) == Err(TemplateError(name))
                           <==> exists i :: 0 <= i < |inp.parameters| && inp.parameters[i].name == name
                                            && IllKindedAt(inp, inp.parameters, i)
    ensures forall e: Error :: !e.TemplateError? ==>
              (Resolve(inp) == Err(e)
               <==> exists i :: 0 <= i < |inp.parameters| && UnavailableAt(inp, inp.parameters, i, e))
  {
    var ps := inp.parameters;
    BeforeAll(inp);
    hide Before, Resolve, Valid, ParameterValue, OnlySource, RefersOnlyTo, KindedAlong, UnavailableAt;
    forall i | 0 <= i < |ps| && IllKindedAt(inp, ps, i)
      ensures Before(inp, ps, |ps|) == Err(TemplateError(ps[i].name))
    {
      ReachedKeys(inp, ps, i);
      TemplateErrorExact(inp, ps[i], Before(inp, ps, i).value);
      FailsThere(inp, ps, i, TemplateError(ps[i].name));
    }
    forall i, e: Error | 0 <= i < |ps| && UnavailableAt(inp, ps, i, e)
      ensures Before(inp, ps, |ps|) == Err(e)
    {
      UnavailableReached(inp, ps, i, e);
      ReachedKeys(inp, ps, i);
      OtherErrorsExact(inp, ps, i, e);
      FailsThere(inp, ps, i, e);
    }
    if Before(inp, ps, |ps|).Err? {
      var i := FirstFailure(inp, ps, |ps|);
      ReachedKeys(inp, ps, i);
      BeforeNext(inp, ps, i);
      FailureStays(inp, ps, i);
      TemplateErrorExact(inp, ps[i], Before(inp, ps, i).value);
      var e := Before(inp, ps, |ps|).error;
      if !e.TemplateError? {
        OtherErrorsExact(inp, ps, i, e);
      }
    }
  }

  lemma UnavailableReached(inp: Input, ps: seq<Parameter>, i: nat, e: Error)
    requires i < |ps| && UnavailableAt(inp, ps, i, e)
    ensures Before(inp, ps, i).Ok? && !e.TemplateError?
  {
    hide Before, YieldsNothing;
  }

  /** The static check under which no parameter of the list is ever ill-kinded. */
  predicate Kinded(p: Parameter)
  {
    p.source.template.Parsed? ==> WellKinded(p.source.template.root, MapKind)
  }

  lemma KindedNeverIll(inp: Input, ps: seq<Parameter>, i: nat)
    requires i < |ps| && Kinded(ps[i])
    ensures !IllKindedAt(inp, ps, i)
  {
    hide Before;
    if IllKindedAt(inp, ps, i) {
      WellKindedAlong(ps[i].source.template.root, Root, Before(inp, ps, i).value);
    }
  }
}
