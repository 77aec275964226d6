/**
  The controller's static validator, its agreement with the admission-time builder, and the
  theorem it exists for: a validated shim can only be skipped for reasons that depend on the pod.
 */
module Validation {
  import opened Text
  import opened Keys
  import opened Paths
  import opened FileModes
  import opened Templates
  import opened Params
  import opened Equations
  import opened Specs
  import opened Plans
  import opened Selection
  import HelperConf
  import Delivery

  const VALIDATION_AUDIENCE := "validate"
  const VALIDATION_AGENT_ADDRESS := "/spiffe-workload-api/spire-agent.sock"

  datatype ShimProblem =
    | NameTooLong
    | ParameterProblem(problem: Problem)
    | SelectorInvalid
    | TokenInvalid(error: HelperConf.ConfError)
    | PullPolicyInvalid(policy: string)
    | TemplateInvalid(field: nat)
    | KeyUnknown(field: nat, key: string)
    | FileModeInvalid(path: string)
    | FilePathIsTokenMount(path: string)
    | FilePathRepeated(path: string)
    | FilePathUnderTokenMount(path: string)

  /* ---------- files ---------- */

  function FileProblems(f: FileSpec, seen: set<string>, mountPath: string): seq<ShimProblem>
  {
    (if MatchesModePattern(FileMode(f)) then [] else [FileModeInvalid(f.path)])
    + (if f.path !in seen then []
       else if f.path == mountPath then [FilePathIsTokenMount(f.path)] else [FilePathRepeated(f.path)])
    + (if (mountPath + "/") <= f.path then [FilePathUnderTokenMount(f.path)] else [])
  }

  function AllFileProblems(fs: seq<FileSpec>, mountPath: string): seq<ShimProblem>
  {
    if fs == [] then []
    else
      var front := fs[..|fs| - 1];
      AllFileProblems(front, mountPath) + FileProblems(fs[|fs| - 1], PathSet(front, mountPath), mountPath)
  }

  predicate ModesMatch(fs: seq<FileSpec>)
  {
    forall i :: 0 <= i < |fs| ==> MatchesModePattern(FileMode(fs[i]))
  }

  lemma ModesMatchSnoc(fs: seq<FileSpec>, f: FileSpec)
    ensures ModesMatch(fs + [f]) <==> ModesMatch(fs) && MatchesModePattern(FileMode(f))
  {
    hide MatchesModePattern, FileMode;
    var all := fs + [f];
    assert all[|fs|] == f && forall i :: 0 <= i < |fs| ==> all[i] == fs[i];
  }

  /** The validator accepts files exactly when the paths are fine and every mode has the pattern. */
  lemma {:induction false} FileProblemsExact(fs: seq<FileSpec>, mountPath: string)
    ensures AllFileProblems(fs, mountPath) == [] <==> PathsFine(fs, mountPath) && ModesMatch(fs)
  {
    if fs != [] {
      var front, f := fs[..|fs| - 1], fs[|fs| - 1];
      hide PathsFine, ModesMatch, MatchesModePattern, FileMode, PathSet, FileProblems;
      FileProblemsExact(front, mountPath);
      assert fs == front + [f];
      OneFileProblems(f, PathSet(front, mountPath), mountPath);
      PathsFineSnoc(front, f, mountPath);
      ModesMatchSnoc(front, f);
    }
  }

  lemma OneFileProblems(f: FileSpec, seen: set<string>, mountPath: string)
    ensures FileProblems(f, seen, mountPath) == []
            <==> MatchesModePattern(FileMode(f)) && f.path !in seen && !((mountPath + "/") <= f.path)
  {
    hide MatchesModePattern, FileMode;
  }

  method ValidateFiles(fs: seq<FileSpec>, mountPath: string) returns (problems: seq<ShimProblem>)
    ensures problems == AllFileProblems(fs, mountPath)
    ensures problems == [] <==> PathsFine(fs, mountPath) && ModesMatch(fs)
  {
    hide PathSet, FileMode, MatchesModePattern, PathsFine, ModesMatch;
    problems := [];
    var seen := {mountPath};
    assert PathSet([], mountPath) == {mountPath} by { NoPaths(mountPath); }
    for i := 0 to |fs|
      invariant problems == AllFileProblems(fs[..i], mountPath)
      invariant seen == PathSet(fs[..i], mountPath)
    {
      assert fs[..i + 1][..i] == fs[..i] && fs[..i + 1] == fs[..i] + [fs[i]];
      PathSetSnoc(fs[..i], fs[i], mountPath);
      problems := problems + FileProblems(fs[i], seen, mountPath);
      seen := seen + {fs[i].path};
    }
    assert fs[..|fs|] == fs;
    FileProblemsExact(fs, mountPath);
  }

  lemma ModesMatchParse(fs: seq<FileSpec>)
    requires ModesMatch(fs)
    ensures ModesParse(fs)
  {
    forall i | 0 <= i < |fs| ensures ParseFileMode(FileMode(fs[i])).Some? {
      PatternParses(FileMode(fs[i]));
    }
  }

  /**
    The two copies of the file rules agree on paths exactly and differ in modes alone: once the
    contents render, the validator accepts exactly what the builder accepts with modes of the
    pattern.  So whatever the validator accepts, the builder accepts.
   */
  lemma {:induction false} ValidatorImpliesBuilder(fs: seq<FileSpec>, v: Values, mountPath: string)
    requires FilesRender(fs, v)
    ensures AllFileProblems(fs, mountPath) == [] <==> Files(fs, v, mountPath).Good? && ModesMatch(fs)
  {
    FilesExact(fs, v, mountPath);
    FileProblemsExact(fs, mountPath);
    hide PathsFine, FilesRender, ModesParse, ModesMatch, Files, AllFileProblems;
    if ModesMatch(fs) {
      ModesMatchParse(fs);
    }
  }

  /** The converse fails on the mode alone. */
  lemma {:induction false} BuilderLaxerThanValidator(v: Values)
    ensures var fs := [FileSpec("/f", Empty, "1777")];
            Files(fs, v, "/t").Good? && AllFileProblems(fs, "/t") != []
  {
    var f := FileSpec("/f", Empty, "1777");
    var fs := [f];
    ParserLaxerThanPattern();
    FileProblemsExact(fs, "/t");
    FilesExact(fs, v, "/t");
    assert FileMode(fs[0]) == "1777";
    assert "/t" + "/" == "/t/" && |"/f"| == 2;
    assert !AtOrUnder("/t", "/f");
    hide MatchesModePattern, ParseFileMode;
    assert PathsFine(fs, "/t") && FilesRender(fs, v) && ModesParse(fs);
  }

  /* ---------- templated fields ---------- */

  function UnknownKeys(field: nat, keys: seq<string>, known: set<string>): seq<ShimProblem>
  {
    if keys == [] then []
    else UnknownKeys(field, keys[..|keys| - 1], known)
         + (if keys[|keys| - 1] in known then [] else [KeyUnknown(field, keys[|keys| - 1])])
  }

  function FieldProblems(field: nat, t: Template, known: set<string>): seq<ShimProblem>
  {
    match ReferencedKeys(t)
    case None => [TemplateInvalid(field)]
    case Some(keys) => UnknownKeys(field, keys, known)
  }

  function AllFieldProblems(ts: seq<Template>, known: set<string>): seq<ShimProblem>
  {
    if ts == [] then []
    else AllFieldProblems(ts[..|ts| - 1], known) + FieldProblems(|ts| - 1, ts[|ts| - 1], known)
  }

  predicate AllReferOnlyTo(ts: seq<Template>, known: set<string>)
  {
    forall i :: 0 <= i < |ts| ==> RefersOnlyTo(ts[i], known)
  }

  lemma {:induction false} UnknownKeysNone(field: nat, keys: seq<string>, known: set<string>)
    ensures UnknownKeys(field, keys, known) == [] <==> forall k :: k in keys ==> k in known
  {
    if keys != [] {
      var front, last := keys[..|keys| - 1], keys[|keys| - 1];
      UnknownKeysNone(field, front, known);
      assert keys == front + [last];
      assert last in keys && forall k :: k in keys <==> k in front || k == last;
    }
  }

  lemma FieldProblemsNone(field: nat, t: Template, known: set<string>)
    ensures FieldProblems(field, t, known) == [] <==> RefersOnlyTo(t, known)
  {
    match t
    case Empty =>
    case Unparsable =>
    case Parsed(root) =>
      CollectCharacterised(Visits(root));
      UnknownKeysNone(field, Collect([], Visits(root)), known);
  }

  lemma {:induction false} AllFieldProblemsNone(ts: seq<Template>, known: set<string>)
    ensures AllFieldProblems(ts, known) == [] <==> AllReferOnlyTo(ts, known)
  {
    if ts != [] {
      hide FieldProblems, RefersOnlyTo;
      var n := |ts| - 1;
      AllFieldProblemsNone(ts[..n], known);
      FieldProblemsNone(n, ts[n], known);
      assert AllReferOnlyTo(ts, known) <==> AllReferOnlyTo(ts[..n], known) && RefersOnlyTo(ts[n], known) by {
        assert forall i :: 0 <= i < n ==> ts[..n][i] == ts[i];
      }
    }
  }

  /** The closure `check` over every templated field, accumulating problems. */
  method CheckFields(ts: seq<Template>, known: set<string>) returns (problems: seq<ShimProblem>)
    ensures problems == AllFieldProblems(ts, known)
  {
    problems := [];
    for i := 0 to |ts|
      invariant problems == AllFieldProblems(ts[..i], known)
    {
      assert ts[..i + 1][..i] == ts[..i];
      var more := CheckField(i, ts[i], known);
      problems := problems + more;
    }
    assert ts[..|ts|] == ts;
  }

  method CheckField(field: nat, t: Template, known: set<string>) returns (problems: seq<ShimProblem>)
    ensures problems == FieldProblems(field, t, known)
  {
    var r := CollectKeys(t);
    if r.None? {
      return [TemplateInvalid(field)];
    }
    problems := [];
    var keys := r.value;
    for j := 0 to |keys|
      invariant problems == UnknownKeys(field, keys[..j], known)
    {
      assert keys[..j + 1][..j] == keys[..j];
      if keys[j] !in known {
        problems := problems + [KeyUnknown(field, keys[j])];
      }
    }
    assert keys[..|keys|] == keys;
  }

  /* ---------- the whole validator ---------- */

  function TokenProblem(shimName: string, token: TokenSpec): seq<ShimProblem>
  {
    var tok := ResolveToken(shimName, token);
    match HelperConf.Render(HelperConf.Config(VALIDATION_AGENT_ADDRESS, tok.mountPath, VALIDATION_AUDIENCE, [],
                                              tok.fileName, tok.fileMode))
    case Ok(_) => []
    case Err(e) => [TokenInvalid(e)]
  }

  predicate PullPolicyOk(helper: Option<HelperSpec>)
  {
    helper.None? || helper.value.imagePullPolicy in {"", "Always", "IfNotPresent", "Never"}
  }

  function PullPolicyProblem(helper: Option<HelperSpec>): (r: seq<ShimProblem>)
    ensures r == [] <==> PullPolicyOk(helper)
  {
    if PullPolicyOk(helper) then [] else [PullPolicyInvalid(helper.value.imagePullPolicy)]
  }

  function Wrap(ps: seq<Problem>): (r: seq<ShimProblem>)
    ensures |r| == |ps|
  {
    seq(|ps|, i requires 0 <= i < |ps| => ParameterProblem(ps[i]))
  }

  function Known(spec: ShimSpec): set<string> { BuiltinSet() + NamesOf(spec.parameters) }

  function ShimProblems(spec: ShimSpec, name: string): seq<ShimProblem>
  {
    (if |name| > MAX_SHIM_NAME_LENGTH then [NameTooLong] else [])
    + Wrap(Problems(spec.parameters))
    + (if SelectorsValid(spec.selection) then [] else [SelectorInvalid])
    + TokenProblem(name, spec.token)
    + PullPolicyProblem(spec.helper)
    + AllFieldProblems(TemplatedFields(spec), Known(spec))
    + AllFileProblems(spec.inject.files, ResolveToken(name, spec.token).mountPath)
  }

  /** What acceptance means, rule by rule. */
  predicate ValidShim(spec: ShimSpec, name: string)
  {
    && |name| <= MAX_SHIM_NAME_LENGTH
    && Valid(spec.parameters)
    && SelectorsValid(spec.selection)
    && MatchesModePattern(ResolveToken(name, spec.token).fileMode)
    && PullPolicyOk(spec.helper)
    && AllReferOnlyTo(TemplatedFields(spec), Known(spec))
    && PathsFine(spec.inject.files, ResolveToken(name, spec.token).mountPath)
    && ModesMatch(spec.inject.files)
  }

  lemma TokenProblemExact(shimName: string, token: TokenSpec)
    ensures TokenProblem(shimName, token) == [] <==> MatchesModePattern(ResolveToken(shimName, token).fileMode)
  {
    hide HelperConf.ConfText, MatchesModePattern;
    assert VALIDATION_AGENT_ADDRESS != "" && VALIDATION_AUDIENCE != "";
  }

  lemma ShimProblemsExact(spec: ShimSpec, name: string)
    ensures ShimProblems(spec, name) == [] <==> ValidShim(spec, name)
  {
    ProblemsCharacterised(spec.parameters);
    TokenProblemExact(name, spec.token);
    AllFieldProblemsNone(TemplatedFields(spec), Known(spec));
    FileProblemsExact(spec.inject.files, ResolveToken(name, spec.token).mountPath);
    hide Problems, Valid, SelectorsValid, TokenProblem, MatchesModePattern, ResolveToken, PullPolicyOk,
         PullPolicyProblem, AllFieldProblems, AllReferOnlyTo, TemplatedFields, Known, AllFileProblems, PathsFine,
         ModesMatch;
  }

  method ValidateShim(spec: ShimSpec, name: string) returns (problems: seq<ShimProblem>)
    ensures problems == ShimProblems(spec, name)
    ensures problems == [] <==> ValidShim(spec, name)
  {
    hide Problems, Valid, SelectorsValid, TokenProblem, ResolveToken, PullPolicyProblem, AllFieldProblems,
         TemplatedFields, AllFileProblems, ValidShim, BuiltinSet, NamesOf;
    problems := if |name| > MAX_SHIM_NAME_LENGTH then [NameTooLong] else [];
    var params := Validate(spec.parameters);
    problems := problems + Wrap(params);
    if !SelectorsValid(spec.selection) {
      problems := problems + [SelectorInvalid];
    }
    problems := problems + TokenProblem(name, spec.token);
    problems := problems + PullPolicyProblem(spec.helper);
    var fields := CheckFields(TemplatedFields(spec), Known(spec));
    problems := problems + fields;
    var files := ValidateFiles(spec.inject.files, ResolveToken(name, spec.token).mountPath);
    problems := problems + files;
    ShimProblemsExact(spec, name);
  }

  /* ---------- validated shims do not go wrong ---------- */

  /** Every expression the field evaluates over these values has a kind. */
  predicate FieldKinded(t: Template, v: Values) { t.Parsed? ==> KindedAlong(t.root, Root, v) }

  predicate AllFieldsKinded(ts: seq<Template>, v: Values)
  {
    forall i :: 0 <= i < |ts| ==> FieldKinded(ts[i], v)
  }

  /** The static check pays off field by field: a checked field renders exactly when it is kinded. */
  lemma FieldsRender(ts: seq<Template>, known: set<string>, v: Values)
    requires AllReferOnlyTo(ts, known) && known <= v.Keys
    ensures AllRender(ts, v) <==> AllFieldsKinded(ts, v)
  {
    forall i | 0 <= i < |ts| ensures RenderTemplate(ts[i], v).Some? <==> FieldKinded(ts[i], v) {
      FieldRenders(ts[i], known, v);
    }
    hide RenderTemplate, FieldKinded;
  }

  lemma FieldRenders(t: Template, known: set<string>, v: Values)
    requires RefersOnlyTo(t, known) && known <= v.Keys
    ensures RenderTemplate(t, v).Some? <==> FieldKinded(t, v)
  {
    if t.Parsed? {
      RenderExact(t.root, Root, v);
    }
  }

  lemma ValidLocatable(spec: ShimSpec, name: string, d: Defaults)
    requires MatchesModePattern(ResolveToken(name, spec.token).fileMode) && ValidDefaults(d)
    ensures Locatable(spec, ResolveToken(name, spec.token), d)
  {
    hide MatchesModePattern;
    assert SocketMountPath(spec, d) != "";
  }

  /** The errors that depend on the pod: an audience that renders to nothing, or the size. */
  predicate PodDependent(e: BuildError)
  {
    e == ConfFails(HelperConf.NoAudience) || e.TooLarge?
  }

  /**
    Building a validated shim, exactly: it succeeds if and only if every field is kinded along the
    path these values take, the audience is not empty and the size is within the cap; and which of
    the three fails is what the error says.
   */
  lemma ValidatedBuildExact(shim: Shim, v: Values, d: Defaults)
    requires ValidShim(shim.spec, shim.id.name) && ValidDefaults(d) && Known(shim.spec) <= v.Keys
    ensures var tok := ResolveToken(shim.id.name, shim.spec.token);
            var r, kinded := Build(shim, v, tok, d), AllFieldsKinded(TemplatedFields(shim.spec), v);
            && (r.Good? <==> kinded && TextOf(shim.spec.audience, v) != "" && WithinCap(shim, v, tok, d))
            && (r.Bad? ==> (TemplateFailure(r.error) <==> !kinded)
                           && (TemplateFailure(r.error) || PodDependent(r.error)))
  {
    hide Known, AllReferOnlyTo, PathsFine, ModesMatch, ModesParse, AllRender, Build, ResolveToken, Valid,
         SelectorsValid, PullPolicyOk, AllFieldsKinded, Locatable, WithinCap, SizeOf, TemplatedFields, TextOf,
         MatchesModePattern;
    var spec := shim.spec;
    FieldsRender(TemplatedFields(spec), Known(spec), v);
    ModesMatchParse(spec.inject.files);
    ValidLocatable(spec, shim.id.name, d);
    BuildExact(shim, v, ResolveToken(shim.id.name, spec.token), d);
  }

  /* ---------- resolve, then build ---------- */

  datatype SkipCause = Unresolved(error: Error) | Unbuilt(reason: BuildError)
  datatype Planned = Planned(plan: Plan) | Skipped(cause: SkipCause)

  function InputFor(shim: Shim, lookup: Lookup, serviceAccount: string, podNamespace: string,
                    getConfigMap: Option<(string, string) -> ConfigMapRead>): Input
  {
    var tok := ResolveToken(shim.id.name, shim.spec.token);
    Input(shim.spec.parameters, lookup, BuiltinsFor(shim.id.name, serviceAccount, podNamespace, tok),
          ConfigMapNamespaceFor(shim, podNamespace), getConfigMap)
  }

  function PlanFrom(shim: Shim, inp: Input, d: Defaults): Planned
  {
    match Resolve(inp)
    case Err(e) => Skipped(Unresolved(e))
    case Ok(v) =>
      match Build(shim, v, ResolveToken(shim.id.name, shim.spec.token), d)
      case Bad(e) => Skipped(Unbuilt(e))
      case Good(plan) => Planned(plan)
  }

  /** What admission does with one matching shim. */
  function PlanFor(shim: Shim, lookup: Lookup, serviceAccount: string, podNamespace: string,
                   getConfigMap: Option<(string, string) -> ConfigMapRead>, d: Defaults): Planned
  {
    PlanFrom(shim, InputFor(shim, lookup, serviceAccount, podNamespace, getConfigMap), d)
  }

  /** With valid parameters `.tokenPath` is the path the token is written to, on every pod. */
  lemma TokenPathNamed(shim: Shim, lookup: Lookup, serviceAccount: string, podNamespace: string,
                       getConfigMap: Option<(string, string) -> ConfigMapRead>)
    requires Valid(shim.spec.parameters)
    requires Resolve(InputFor(shim, lookup, serviceAccount, podNamespace, getConfigMap)).Ok?
    ensures var v := Resolve(InputFor(shim, lookup, serviceAccount, podNamespace, getConfigMap)).value;
            && KEY_TOKEN_PATH in v
            && v[KEY_TOKEN_PATH] == Delivery.TokenPath(ResolveToken(shim.id.name, shim.spec.token))
  {
    var inp := InputFor(shim, lookup, serviceAccount, podNamespace, getConfigMap);
    hide Resolve, Valid, ResolveToken, Delivery.TokenPath;
    FinalKeys(inp);
    var b := BuiltinValues(inp.builtins);
    assert KEY_TOKEN_PATH in b && b[KEY_TOKEN_PATH] == Delivery.TokenPath(ResolveToken(shim.id.name, shim.spec.token));
  }

  predicate TemplateCause(c: SkipCause)
  {
    match c
    case Unresolved(e) => e.TemplateError?
    case Unbuilt(e) => TemplateFailure(e)
  }

  /** On this pod, a template that is reached evaluates an expression without a kind. */
  ghost predicate GoesWrong(shim: Shim, inp: Input)
  {
    || (exists i :: 0 <= i < |inp.parameters| && IllKindedAt(inp, inp.parameters, i))
    || (Resolve(inp).Ok? && !AllFieldsKinded(TemplatedFields(shim.spec), Resolve(inp).value))
  }

  lemma WrongBeforeResolved(inp: Input)
    requires Valid(inp.parameters)
    ensures Resolve(inp).Err? && Resolve(inp).error.TemplateError?
            <==> exists i :: 0 <= i < |inp.parameters| && IllKindedAt(inp, inp.parameters, i)
  {
    ResolveErrorsExact(inp);
    hide Resolve, Valid, IllKindedAt, UnavailableAt;
    if i :| 0 <= i < |inp.parameters| && IllKindedAt(inp, inp.parameters, i) {
      assert Resolve(inp) == Err(TemplateError(inp.parameters[i].name));
    }
  }

  /**
    Validated shims do not go wrong, exactly: whatever the pod, its labels and annotations and the
    ConfigMaps, a shim the controller accepts is skipped over a template if and only if a template
    that is reached evaluates an expression without a kind; every other skip is a missing required
    value, a ConfigMap that cannot be read, an empty audience, or the size cap.
   */
  lemma ValidatedShimsDoNotGoWrong(shim: Shim, lookup: Lookup, serviceAccount: string, podNamespace: string,
                                   getConfigMap: (string, string) -> ConfigMapRead, d: Defaults)
    requires ValidShim(shim.spec, shim.id.name) && ValidDefaults(d)
    ensures var inp := InputFor(shim, lookup, serviceAccount, podNamespace, Some(getConfigMap));
            match PlanFor(shim, lookup, serviceAccount, podNamespace, Some(getConfigMap), d)
            case Planned(_) => !GoesWrong(shim, inp)
            case Skipped(cause) =>
              && (TemplateCause(cause) <==> GoesWrong(shim, inp))
              && match cause
                 case Unresolved(e) => e.MissingParameter? || e.ConfigMapReadError? || e.TemplateError?
                 case Unbuilt(e) => PodDependent(e) || TemplateFailure(e)
  {
    var inp := InputFor(shim, lookup, serviceAccount, podNamespace, Some(getConfigMap));
    ResolveErrorsExact(inp);
    WrongBeforeResolved(inp);
    hide Resolve, Build, ResolveToken, BuiltinsFor, PodDependent, TemplateFailure, IllKindedAt, AllFieldsKinded,
         TextOf, WithinCap, TemplatedFields;
    if Resolve(inp).Ok? {
      FinalKeys(inp);
      ValidatedBuildExact(shim, Resolve(inp).value, d);
    }
  }

  /** All templates of the shim lie in the well-kinded fragment. */
  predicate KindedShim(spec: ShimSpec)
  {
    && (forall i :: 0 <= i < |spec.parameters| ==> Kinded(spec.parameters[i]))
    && (forall i :: 0 <= i < |TemplatedFields(spec)| ==>
          TemplatedFields(spec)[i].Parsed? ==> WellKinded(TemplatedFields(spec)[i].root, MapKind))
  }

  /** A check on the spec alone under which a template never goes wrong, on any pod. */
  lemma KindedShimsNeverGoWrong(shim: Shim, inp: Input)
    requires KindedShim(shim.spec) && inp.parameters == shim.spec.parameters
    ensures !GoesWrong(shim, inp)
  {
    hide Resolve, IllKindedAt, Kinded, TemplatedFields;
    forall i | 0 <= i < |inp.parameters| ensures !IllKindedAt(inp, inp.parameters, i) {
      KindedNeverIll(inp, inp.parameters, i);
    }
    if Resolve(inp).Ok? {
      var ts, v := TemplatedFields(shim.spec), Resolve(inp).value;
      forall i | 0 <= i < |ts| ensures FieldKinded(ts[i], v) {
        if ts[i].Parsed? {
          WellKindedAlong(ts[i].root, Root, v);
        }
      }
    }
  }
}
