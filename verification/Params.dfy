/**
  Ordered parameters: `Resolve` computes them one after another over the values so far, and
  `Validate` is the static check that runs before any pod is seen.  Module `Equations` has the
  laws a validated list obeys.
 */
module Params {
  import opened Text
  import opened Templates

  const KEY_POD_NAMESPACE := "podNamespace"
  const KEY_SERVICE_ACCOUNT_NAME := "serviceAccountName"
  const KEY_SHIM_NAME := "shimName"
  const KEY_TOKEN_DIR := "tokenDir"
  const KEY_TOKEN_PATH := "tokenPath"

  const BUILTIN_KEYS := [KEY_POD_NAMESPACE, KEY_SERVICE_ACCOUNT_NAME, KEY_SHIM_NAME, KEY_TOKEN_DIR, KEY_TOKEN_PATH]

  datatype Builtins = Builtins(podNamespace: string, serviceAccountName: string, shimName: string,
                               tokenDir: string, tokenPath: string)

  datatype ConfigMapKey = ConfigMapKey(name: string, key: string)

  datatype Source = Source(
    constant: Option<string>,
    annotation: string,
    lbl: string,
    configMap: Option<ConfigMapKey>,
    template: Template)

  datatype Parameter = Parameter(name: string, source: Source, default: Option<string>, required: bool)

  datatype Metadata = Metadata(annotations: map<string, string>, labels: map<string, string>)

  datatype Lookup = Lookup(pod: Metadata, serviceAccount: Metadata, namespace: Metadata)

  datatype ConfigMapRead = Missing | ReadFailed | Data(entries: map<string, string>)

  datatype Input = Input(
    parameters: seq<Parameter>,
    lookup: Lookup,
    builtins: Builtins,
    configMapNamespace: string,
    getConfigMap: Option<(string, string) -> ConfigMapRead>)

  datatype Error =
    | NoConfigMapGetter(param: string)
    | ConfigMapReadError(param: string, configMap: string)
    | TemplateError(param: string)
    | MissingParameter(param: string)

  datatype Result<+T> = Ok(value: T) | Err(error: Error)

  /* ---------- resolution ---------- */

  function BuiltinValues(b: Builtins): (v: Values)
    ensures forall k :: k in v <==> k in BUILTIN_KEYS
    ensures v != map[]
  {
    var v := map[KEY_POD_NAMESPACE := b.podNamespace, KEY_SERVICE_ACCOUNT_NAME := b.serviceAccountName,
                 KEY_SHIM_NAME := b.shimName, KEY_TOKEN_DIR := b.tokenDir, KEY_TOKEN_PATH := b.tokenPath];
    assert KEY_SHIM_NAME in v;
    v
  }

  /** The first of Pod, ServiceAccount and Namespace that has the key, empty value or not. */
  function FirstPresent(key: string, maps: seq<map<string, string>>): Option<string>
  {
    if maps == [] then None
    else if key in maps[0] then Some(maps[0][key])
    else FirstPresent(key, maps[1..])
  }

  function AnnotationMaps(l: Lookup): seq<map<string, string>>
  {
    [l.pod.annotations, l.serviceAccount.annotations, l.namespace.annotations]
  }

  function LabelMaps(l: Lookup): seq<map<string, string>>
  {
    [l.pod.labels, l.serviceAccount.labels, l.namespace.labels]
  }

  /** What a source yields: a value, nothing, or an error; sources are tried in a fixed order. */
  function ResolveOne(inp: Input, p: Parameter, sofar: Values): Result<Option<string>>
  {
    var src := p.source;
    if src.constant.Some? then Ok(src.constant)
    else if src.annotation != "" then Ok(FirstPresent(src.annotation, AnnotationMaps(inp.lookup)))
    else if src.lbl != "" then Ok(FirstPresent(src.lbl, LabelMaps(inp.lookup)))
    else if src.configMap.Some? then
      if inp.getConfigMap.None? then Err(NoConfigMapGetter(p.name))
      else
        match inp.getConfigMap.value(inp.configMapNamespace, src.configMap.value.name)
        case ReadFailed => Err(ConfigMapReadError(p.name, src.configMap.value.name))
        case Missing => Ok(None)
        case Data(entries) =>
          Ok(if src.configMap.value.key in entries then Some(entries[src.configMap.value.key]) else None)
    else if !src.template.Empty? then
      match RenderTemplate(src.template, sofar)
      case None => Err(TemplateError(p.name))
      case Some(text) => Ok(if text != "" then Some(text) else None)
    else Ok(None)
  }

  /** The value a parameter takes: its source's, else its default, else empty unless required. */
  function ParameterValue(inp: Input, p: Parameter, sofar: Values): Result<string>
  {
    match ResolveOne(inp, p, sofar)
    case Err(e) => Err(e)
    case Ok(Some(text)) => Ok(text)
    case Ok(None) =>
      if p.default.Some? then Ok(p.default.value)
      else if p.required then Err(MissingParameter(p.name))
      else Ok("")
  }

  function ResolveFrom(inp: Input, ps: seq<Parameter>, v: Values): Result<Values>
    decreases ps
  {
    if ps == [] then Ok(v)
    else
      match ParameterValue(inp, ps[0], v)
      case Err(e) => Err(e)
      case Ok(x) => ResolveFrom(inp, ps[1..], v[ps[0].name := x])
  }

  function Resolve(inp: Input): Result<Values>
  {
    ResolveFrom(inp, inp.parameters, BuiltinValues(inp.builtins))
  }

  /** The loop itself, updating one map in parameter order. */
  method ResolveLoop(inp: Input) returns (r: Result<Values>)
    ensures r == Resolve(inp)
  {
    var v := BuiltinValues(inp.builtins);
    var ps := inp.parameters;
    for i := 0 to |ps|
      invariant ResolveFrom(inp, ps[i..], v) == Resolve(inp)
    {
      assert ps[i..][0] == ps[i] && ps[i..][1..] == ps[i + 1..];
      var x := ParameterValue(inp, ps[i], v);
      if x.Err? {
        return Err(x.error);
      }
      v := v[ps[i].name := x.value];
    }
    r := Ok(v);
  }

  /* ---------- validation ---------- */

  datatype Problem =
    | DuplicateName(param: string)
    | ReservedName(param: string)
    | SourceCount(param: string, count: nat)
    | InvalidTemplate(param: string)
    | UndefinedKey(param: string, key: string)

  function CountSources(src: Source): nat
  {
    (if src.constant.Some? then 1 else 0)
    + (if src.annotation != "" then 1 else 0)
    + (if src.lbl != "" then 1 else 0)
    + (if src.configMap.Some? then 1 else 0)
    + (if !src.template.Empty? then 1 else 0)
  }

  function UndefinedKeys(param: string, keys: seq<string>, defined: set<string>): seq<Problem>
  {
    if keys == [] then []
    else UndefinedKeys(param, keys[..|keys| - 1], defined)
         + (if keys[|keys| - 1] in defined then [] else [UndefinedKey(param, keys[|keys| - 1])])
  }

  function TemplateProblems(p: Parameter, defined: set<string>): seq<Problem>
  {
    if p.source.template.Empty? then []
    else
      match ReferencedKeys(p.source.template)
      case None => [InvalidTemplate(p.name)]
      case Some(keys) => UndefinedKeys(p.name, keys, defined)
  }

  function ParameterProblems(p: Parameter, seen: set<string>, defined: set<string>): seq<Problem>
  {
    (if p.name in seen then [DuplicateName(p.name)] else [])
    + (if p.name in BUILTIN_KEYS then [ReservedName(p.name)] else [])
    + (if CountSources(p.source) != 1 then [SourceCount(p.name, CountSources(p.source))] else [])
    + TemplateProblems(p, defined)
  }

  function NamesOf(ps: seq<Parameter>): set<string> { set i | 0 <= i < |ps| :: ps[i].name }

  function BuiltinSet(): set<string> { set k | k in BUILTIN_KEYS }

  function Problems(ps: seq<Parameter>): seq<Problem>
  {
    if ps == [] then []
    else
      var front := ps[..|ps| - 1];
      Problems(front) + ParameterProblems(ps[|ps| - 1], NamesOf(front), BuiltinSet() + NamesOf(front))
  }

  method CheckParameter(p: Parameter, seen: set<string>, defined: set<string>) returns (problems: seq<Problem>)
    ensures problems == ParameterProblems(p, seen, defined)
  {
    hide TemplateProblems;
    problems := [];
    if p.name in seen {
      problems := problems + [DuplicateName(p.name)];
    }
    if p.name in BUILTIN_KEYS {
      problems := problems + [ReservedName(p.name)];
    }
    var n := CountSources(p.source);
    if n != 1 {
      problems := problems + [SourceCount(p.name, n)];
    }
    var more := CheckTemplate(p, defined);
    problems := problems + more;
  }

  method Validate(ps: seq<Parameter>) returns (problems: seq<Problem>)
    ensures problems == Problems(ps)
    ensures problems == [] <==> Valid(ps)
  {
    hide ParameterProblems, NamesOf, Valid;
    var defined := set k | k in BUILTIN_KEYS;
    var seen: set<string> := {};
    problems := [];
    assert NamesOf([]) == {} by { NoNames(); }
    for i := 0 to |ps|
      invariant seen == NamesOf(ps[..i]) && defined == BuiltinSet() + NamesOf(ps[..i])
      invariant problems == Problems(ps[..i])
    {
      var more := CheckParameter(ps[i], seen, defined);
      problems := problems + more;
      assert ps[..i + 1] == ps[..i] + [ps[i]];
      assert ps[..i + 1][..i] == ps[..i];
      NamesSnoc(ps[..i], ps[i]);
      seen := seen + {ps[i].name};
      defined := defined + {ps[i].name};
    }
    assert ps[..|ps|] == ps;
    ProblemsCharacterised(ps);
  }

  lemma NoNames()
    ensures NamesOf([]) == {}
  {
  }

  method CheckTemplate(p: Parameter, defined: set<string>) returns (problems: seq<Problem>)
    ensures problems == TemplateProblems(p, defined)
  {
    problems := [];
    if p.source.template.Empty? {
      return;
    }
    var r := CollectKeys(p.source.template);
    if r.None? {
      return [InvalidTemplate(p.name)];
    }
    var keys := r.value;
    for i := 0 to |keys|
      invariant problems == UndefinedKeys(p.name, keys[..i], defined)
    {
      assert keys[..i + 1][..i] == keys[..i];
      if keys[i] !in defined {
        problems := problems + [UndefinedKey(p.name, keys[i])];
      }
    }
    assert keys[..|keys|] == keys;
  }

  lemma NamesSnoc(ps: seq<Parameter>, p: Parameter)
    ensures NamesOf(ps + [p]) == NamesOf(ps) + {p.name}
  {
    var all := ps + [p];
    assert all[|ps|] == p;
    assert forall i :: 0 <= i < |ps| ==> all[i] == ps[i];
    forall x | x in NamesOf(ps) + {p.name} ensures x in NamesOf(all) {
      if x in NamesOf(ps) {
        var i :| 0 <= i < |ps| && ps[i].name == x;
        assert all[i].name == x;
      }
    }
  }

  /* ---------- what validation means ---------- */

  predicate RefersOnlyTo(t: Template, keys: set<string>)
  {
    match t
    case Empty => true
    case Unparsable => false
    case Parsed(root) => forall k :: k in Visits(root) ==> k in keys
  }

  /** Parameter i is fresh, has one source, and its template looks back only. */
  predicate ValidAt(ps: seq<Parameter>, i: nat)
    requires i < |ps|
  {
    && ps[i].name !in NamesOf(ps[..i])
    && ps[i].name !in BUILTIN_KEYS
    && OnlySource(ps[i].source)
    && RefersOnlyTo(ps[i].source.template, BuiltinSet() + NamesOf(ps[..i]))
  }

  predicate Valid(ps: seq<Parameter>)
  {
    forall i :: 0 <= i < |ps| ==> ValidAt(ps, i)
  }

  lemma {:induction false} UndefinedKeysNone(param: string, keys: seq<string>, defined: set<string>)
    ensures UndefinedKeys(param, keys, defined) == [] <==> forall k :: k in keys ==> k in defined
  {
    if keys != [] {
      var front, last := keys[..|keys| - 1], keys[|keys| - 1];
      UndefinedKeysNone(param, front, defined);
      assert keys == front + [last];
      assert last in keys && forall k :: k in keys <==> k in front || k == last;
    }
  }

  lemma TemplateProblemsNone(p: Parameter, defined: set<string>)
    ensures TemplateProblems(p, defined) == [] <==> RefersOnlyTo(p.source.template, defined)
  {
    match p.source.template
    case Empty =>
    case Unparsable =>
    case Parsed(root) =>
      CollectCharacterised(Visits(root));
      UndefinedKeysNone(p.name, Collect([], Visits(root)), defined);
  }

  lemma ParameterProblemsNone(ps: seq<Parameter>, i: nat)
    requires i < |ps|
    ensures ParameterProblems(ps[i], NamesOf(ps[..i]), BuiltinSet() + NamesOf(ps[..i])) == [] <==> ValidAt(ps, i)
  {
    hide TemplateProblems, RefersOnlyTo, NamesOf, CountSources, OnlySource;
    CountsSources(ps[i].source);
    TemplateProblemsNone(ps[i], BuiltinSet() + NamesOf(ps[..i]));
  }

  lemma ValidFront(ps: seq<Parameter>)
    requires ps != []
    ensures Valid(ps) <==> Valid(ps[..|ps| - 1]) && ValidAt(ps, |ps| - 1)
  {
    hide RefersOnlyTo, NamesOf, OnlySource;
    var front := ps[..|ps| - 1];
    forall i | 0 <= i < |front| ensures ValidAt(front, i) == ValidAt(ps, i) {
      assert front[..i] == ps[..i];
    }
  }

  /** The collected problem list is empty exactly for lists that meet the declarative rules. */
  lemma {:induction false} ProblemsCharacterised(ps: seq<Parameter>)
    ensures Problems(ps) == [] <==> Valid(ps)
  {
    hide ParameterProblems, NamesOf, ValidAt, BuiltinSet;
    if ps != [] {
      ProblemsCharacterised(ps[..|ps| - 1]);
      ParameterProblemsNone(ps, |ps| - 1);
      ValidFront(ps);
    }
  }

  /** Exactly one source is set. */
  predicate OnlySource(src: Source)
  {
    var c, a, l := src.constant.Some?, src.annotation != "", src.lbl != "";
    var m, t := src.configMap.Some?, !src.template.Empty?;
    || (c && !a && !l && !m && !t) || (!c && a && !l && !m && !t) || (!c && !a && l && !m && !t)
    || (!c && !a && !l && m && !t) || (!c && !a && !l && !m && t)
  }

  lemma CountsSources(src: Source)
    ensures CountSources(src) == 1 <==> OnlySource(src)
  {
  }

  /** Each source that is set counts once, whichever the others are. */
  lemma SourcesCounted(src: Source, constant: string, key: string, configMap: ConfigMapKey, template: Template)
    requires key != "" && !template.Empty?
    ensures CountSources(Source(None, "", "", None, Empty)) == 0
    ensures CountSources(src.(constant := Some(constant))) == CountSources(src.(constant := None)) + 1
    ensures CountSources(src.(annotation := key)) == CountSources(src.(annotation := "")) + 1
    ensures CountSources(src.(lbl := key)) == CountSources(src.(lbl := "")) + 1
    ensures CountSources(src.(configMap := Some(configMap))) == CountSources(src.(configMap := None)) + 1
    ensures CountSources(src.(template := template)) == CountSources(src.(template := Empty)) + 1
  {
  }

  /** The builtins under the names templates use. */
  lemma BuiltinsNamed(b: Builtins)
    ensures var v := BuiltinValues(b);
            && v.Keys == {"podNamespace", "serviceAccountName", "shimName", "tokenDir", "tokenPath"}
            && v["podNamespace"] == b.podNamespace && v["serviceAccountName"] == b.serviceAccountName
            && v["shimName"] == b.shimName && v["tokenDir"] == b.tokenDir && v["tokenPath"] == b.tokenPath
  {
  }

  /** The nearest object wins even when its value is empty: Pod, then ServiceAccount, then Namespace. */
  lemma NearestObjectWins(inp: Input, p: Parameter, sofar: Values)
    requires OnlySource(p.source)
    ensures p.source.annotation != "" ==>
              var key, l := p.source.annotation, inp.lookup;
              && (key in l.pod.annotations ==> ParameterValue(inp, p, sofar) == Ok(l.pod.annotations[key]))
              && (key !in l.pod.annotations && key in l.serviceAccount.annotations ==>
                    ParameterValue(inp, p, sofar) == Ok(l.serviceAccount.annotations[key]))
              && (key !in l.pod.annotations && key !in l.serviceAccount.annotations
                  && key in l.namespace.annotations ==>
                    ParameterValue(inp, p, sofar) == Ok(l.namespace.annotations[key]))
    ensures p.source.lbl != "" ==>
              var key, l := p.source.lbl, inp.lookup;
              && (key in l.pod.labels ==> ParameterValue(inp, p, sofar) == Ok(l.pod.labels[key]))
              && (key !in l.pod.labels && key in l.serviceAccount.labels ==>
                    ParameterValue(inp, p, sofar) == Ok(l.serviceAccount.labels[key]))
              && (key !in l.pod.labels && key !in l.serviceAccount.labels && key in l.namespace.labels ==>
                    ParameterValue(inp, p, sofar) == Ok(l.namespace.labels[key]))
  {
    hide RenderTemplate;
    FirstOfThree(p.source.annotation, AnnotationMaps(inp.lookup));
    FirstOfThree(p.source.lbl, LabelMaps(inp.lookup));
  }

  lemma {:induction false} FirstOfThree(key: string, maps: seq<map<string, string>>)
    requires |maps| == 3
    ensures FirstPresent(key, maps)
            == if key in maps[0] then Some(maps[0][key])
               else if key in maps[1] then Some(maps[1][key])
               else if key in maps[2] then Some(maps[2][key]) else None
  {
    assert maps[1..][0] == maps[1] && maps[1..][1..] == [maps[2]] && [maps[2]][1..] == [];
    assert FirstPresent(key, [maps[2]]) == if key in maps[2] then Some(maps[2][key]) else None;
  }
}
