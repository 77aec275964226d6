/**
  What the static validators report, problem by problem: each kind of problem appears exactly
  when the spec has the defect it names.
 */
module Reports {
  import opened Text
  import Keys
  import opened FileModes
  import opened Templates
  import opened Params
  import opened Specs
  import opened Plans
  import opened Selection
  import opened Validation
  import HelperConf

  /* ---------- parameters ---------- */

  predicate NamedEarlier(ps: seq<Parameter>, i: nat, name: string)
    requires i <= |ps|
  {
    exists j :: 0 <= j < i && ps[j].name == name
  }

  predicate Reserved(name: string)
  {
    name in {"podNamespace", "serviceAccountName", "shimName", "tokenDir", "tokenPath"}
  }

  /** Parameter i has the defect the problem names. */
  predicate Defect(ps: seq<Parameter>, i: nat, q: Problem)
    requires i < |ps|
  {
    && q.param == ps[i].name
    && match q
       case DuplicateName(_) => NamedEarlier(ps, i, ps[i].name)
       case ReservedName(_) => Reserved(ps[i].name)
       case SourceCount(_, count) => !OnlySource(ps[i].source) && count == CountSources(ps[i].source)
       case InvalidTemplate(_) => ps[i].source.template.Unparsable?
       case UndefinedKey(_, key) =>
         && ps[i].source.template.Parsed? && key in Visits(ps[i].source.template.root)
         && !Reserved(key) && !NamedEarlier(ps, i, key)
  }

  lemma ReservedExact(name: string)
    ensures Reserved(name) <==> name in BUILTIN_KEYS
    ensures Reserved(name) <==> name in BuiltinSet()
  {
    var keys := BUILTIN_KEYS;
    assert keys[0] == "podNamespace" && keys[1] == "serviceAccountName" && keys[2] == "shimName"
           && keys[3] == "tokenDir" && keys[4] == "tokenPath";
  }

  lemma EarlierExact(ps: seq<Parameter>, i: nat, name: string)
    requires i <= |ps|
    ensures NamedEarlier(ps, i, name) <==> name in NamesOf(ps[..i])
  {
  }

  lemma {:induction false} UndefinedKeysExact(param: string, keys: seq<string>, defined: set<string>, q: Problem)
    ensures q in UndefinedKeys(param, keys, defined)
            <==> q.UndefinedKey? && q.param == param && q.key in keys && q.key !in defined
  {
    if keys != [] {
      var n := |keys| - 1;
      UndefinedKeysExact(param, keys[..n], defined, q);
      assert keys == keys[..n] + [keys[n]];
    }
  }

  lemma TemplateProblemsExact(p: Parameter, defined: set<string>, q: Problem)
    ensures q in TemplateProblems(p, defined)
            <==> && q.param == p.name
                 && ((q.InvalidTemplate? && p.source.template.Unparsable?)
                     || (q.UndefinedKey? && p.source.template.Parsed?
                         && q.key in Visits(p.source.template.root) && q.key !in defined))
  {
    match p.source.template
    case Empty =>
    case Unparsable =>
    case Parsed(root) =>
      CollectCharacterised(Visits(root));
      UndefinedKeysExact(p.name, Collect([], Visits(root)), defined, q);
  }

  lemma DefectExact(ps: seq<Parameter>, i: nat, q: Problem)
    requires i < |ps|
    ensures q in ParameterProblems(ps[i], NamesOf(ps[..i]), BuiltinSet() + NamesOf(ps[..i])) <==> Defect(ps, i, q)
  {
    TemplateProblemsExact(ps[i], BuiltinSet() + NamesOf(ps[..i]), q);
    CountsSources(ps[i].source);
    ReservedExact(ps[i].name);
    EarlierExact(ps, i, ps[i].name);
    if q.UndefinedKey? {
      ReservedExact(q.key);
      EarlierExact(ps, i, q.key);
    }
    hide TemplateProblems, NamesOf, BuiltinSet, Reserved, NamedEarlier, OnlySource, CountSources, Visits;
  }

  /** The parameters' problems: exactly the defects of some parameter. */
  lemma {:induction false} ParameterReports(ps: seq<Parameter>, q: Problem)
    ensures q in Problems(ps) <==> exists i :: 0 <= i < |ps| && Defect(ps, i, q)
  {
    hide ParameterProblems, NamesOf, BuiltinSet, Defect;
    if ps != [] {
      var n := |ps| - 1;
      var front := ps[..n];
      ParameterReports(front, q);
      DefectExact(ps, n, q);
      forall i | 0 <= i < n ensures Defect(front, i, q) <==> Defect(ps, i, q) {
        DefectLocal(ps, n, i, q);
      }
    }
  }

  lemma DefectLocal(ps: seq<Parameter>, n: nat, i: nat, q: Problem)
    requires i < n <= |ps|
    ensures Defect(ps[..n], i, q) <==> Defect(ps, i, q)
  {
    hide Reserved, OnlySource, CountSources, Visits;
    assert forall j :: 0 <= j <= i ==> ps[..n][j] == ps[j];
  }

  /* ---------- templated fields ---------- */

  /** A field of the spec does not parse, or mentions a key that is neither builtin nor a parameter. */
  predicate FieldDefect(spec: ShimSpec, p: ShimProblem)
  {
    var ts := TemplatedFields(spec);
    || (p.TemplateInvalid? && p.field < |ts| && ts[p.field].Unparsable?)
    || (&& p.KeyUnknown? && p.field < |ts| && ts[p.field].Parsed? && p.key in Visits(ts[p.field].root)
        && !Reserved(p.key) && !NamedEarlier(spec.parameters, |spec.parameters|, p.key))
  }

  lemma {:induction false} UnknownKeysExact(field: nat, keys: seq<string>, known: set<string>, p: ShimProblem)
    ensures p in UnknownKeys(field, keys, known)
            <==> p.KeyUnknown? && p.field == field && p.key in keys && p.key !in known
  {
    if keys != [] {
      var n := |keys| - 1;
      UnknownKeysExact(field, keys[..n], known, p);
      assert keys == keys[..n] + [keys[n]];
    }
  }

  lemma FieldProblemsExact(field: nat, t: Template, known: set<string>, p: ShimProblem)
    ensures p in FieldProblems(field, t, known)
            <==> || (p.TemplateInvalid? && p.field == field && t.Unparsable?)
                 || (p.KeyUnknown? && p.field == field && t.Parsed? && p.key in Visits(t.root) && p.key !in known)
  {
    match t
    case Empty =>
    case Unparsable =>
    case Parsed(root) =>
      CollectCharacterised(Visits(root));
      UnknownKeysExact(field, Collect([], Visits(root)), known, p);
  }

  lemma {:induction false} AllFieldProblemsExact(ts: seq<Template>, known: set<string>, p: ShimProblem)
    ensures p in AllFieldProblems(ts, known)
            <==> (p.TemplateInvalid? || p.KeyUnknown?) && p.field < |ts|
                 && p in FieldProblems(p.field, ts[p.field], known)
  {
    if ts != [] {
      var n := |ts| - 1;
      AllFieldProblemsExact(ts[..n], known, p);
      FieldProblemsExact(n, ts[n], known, p);
      hide FieldProblems;
    }
  }

  lemma FieldReports(spec: ShimSpec, p: ShimProblem)
    ensures p in AllFieldProblems(TemplatedFields(spec), Known(spec)) <==> FieldDefect(spec, p)
  {
    var ts := TemplatedFields(spec);
    AllFieldProblemsExact(ts, Known(spec), p);
    if (p.TemplateInvalid? || p.KeyUnknown?) && p.field < |ts| {
      FieldProblemsExact(p.field, ts[p.field], Known(spec), p);
    }
    if p.KeyUnknown? {
      ReservedExact(p.key);
      EarlierExact(spec.parameters, |spec.parameters|, p.key);
      assert spec.parameters[..|spec.parameters|] == spec.parameters;
    }
    hide TemplatedFields, AllFieldProblems, FieldProblems, Reserved, NamedEarlier, Visits, BuiltinSet, NamesOf;
  }

  /* ---------- files ---------- */

  /** File i has the defect the problem names; a path is repeated when an earlier file has it. */
  predicate FileDefect(fs: seq<FileSpec>, i: nat, mountPath: string, p: ShimProblem)
    requires i < |fs|
  {
    var f := fs[i];
    match p
    case FileModeInvalid(path) => path == f.path && !MatchesModePattern(if f.mode == "" then "0644" else f.mode)
    case FilePathIsTokenMount(path) => path == f.path == mountPath
    case FilePathRepeated(path) => path == f.path != mountPath && Repeats(fs[..i], f.path)
    case FilePathUnderTokenMount(path) => path == f.path && (mountPath + "/") <= f.path
    case _ => false
  }

  lemma FileDefectExact(fs: seq<FileSpec>, i: nat, mountPath: string, p: ShimProblem)
    requires i < |fs|
    ensures p in FileProblems(fs[i], PathSet(fs[..i], mountPath), mountPath) <==> FileDefect(fs, i, mountPath, p)
  {
    hide MatchesModePattern;
    assert fs[i].path in PathSet(fs[..i], mountPath) <==> fs[i].path == mountPath || Repeats(fs[..i], fs[i].path);
  }

  lemma {:induction false} FileReports(fs: seq<FileSpec>, mountPath: string, p: ShimProblem)
    ensures p in AllFileProblems(fs, mountPath) <==> exists i :: 0 <= i < |fs| && FileDefect(fs, i, mountPath, p)
  {
    hide FileProblems, PathSet, FileDefect;
    if fs != [] {
      var n := |fs| - 1;
      var front := fs[..n];
      FileReports(front, mountPath, p);
      FileDefectExact(fs, n, mountPath, p);
      forall i | 0 <= i < n ensures FileDefect(front, i, mountPath, p) <==> FileDefect(fs, i, mountPath, p) {
        FileDefectLocal(fs, n, i, mountPath, p);
      }
    }
  }

  lemma FileDefectLocal(fs: seq<FileSpec>, n: nat, i: nat, mountPath: string, p: ShimProblem)
    requires i < n <= |fs|
    ensures FileDefect(fs[..n], i, mountPath, p) <==> FileDefect(fs, i, mountPath, p)
  {
    assert fs[..n][..i] == fs[..i] && fs[..n][i] == fs[i];
  }

  /* ---------- the whole shim ---------- */

  predicate BadSelector(s: Option<LabelSelector>) { s.Some? && !s.value.valid }

  /** The shim has the defect the problem names. */
  predicate ShimDefect(spec: ShimSpec, name: string, p: ShimProblem)
  {
    var tok := ResolveToken(name, spec.token);
    match p
    case NameTooLong => |name| > 46
    case ParameterProblem(q) => exists i :: 0 <= i < |spec.parameters| && Defect(spec.parameters, i, q)
    case SelectorInvalid =>
      || BadSelector(spec.selection.namespaceSelector)
      || BadSelector(spec.selection.serviceAccountSelector)
      || BadSelector(spec.selection.podSelector)
    case TokenInvalid(e) => e == HelperConf.BadFileMode && !MatchesModePattern(tok.fileMode)
    case PullPolicyInvalid(policy) =>
      && spec.helper.Some? && policy == spec.helper.value.imagePullPolicy
      && policy != "" && policy != "Always" && policy != "IfNotPresent" && policy != "Never"
    case TemplateInvalid(_) => FieldDefect(spec, p)
    case KeyUnknown(_, _) => FieldDefect(spec, p)
    case _ => exists i :: 0 <= i < |spec.inject.files| && FileDefect(spec.inject.files, i, tok.mountPath, p)
  }

  lemma WrapExact(ps: seq<Problem>, p: ShimProblem)
    ensures p in Wrap(ps) <==> p.ParameterProblem? && p.problem in ps
  {
    if p.ParameterProblem? && p.problem in ps {
      var i :| 0 <= i < |ps| && ps[i] == p.problem;
      assert Wrap(ps)[i] == p;
    }
  }

  lemma TokenReports(name: string, token: TokenSpec, p: ShimProblem)
    ensures var mode := ResolveToken(name, token).fileMode;
            p in TokenProblem(name, token)
            <==> p == TokenInvalid(HelperConf.BadFileMode) && !MatchesModePattern(mode)
  {
    hide HelperConf.ConfText, MatchesModePattern;
    assert VALIDATION_AGENT_ADDRESS != "" && VALIDATION_AUDIENCE != "";
  }

  predicate FieldKind(p: ShimProblem) { p.TemplateInvalid? || p.KeyUnknown? }

  predicate FileKind(p: ShimProblem)
  {
    p.FileModeInvalid? || p.FilePathIsTokenMount? || p.FilePathRepeated? || p.FilePathUnderTokenMount?
  }

  lemma SmallReports(spec: ShimSpec, name: string, p: ShimProblem)
    ensures p in (if |name| > Keys.MAX_SHIM_NAME_LENGTH then [NameTooLong] else [])
            <==> p.NameTooLong? && ShimDefect(spec, name, p)
    ensures p in (if SelectorsValid(spec.selection) then [] else [SelectorInvalid])
            <==> p.SelectorInvalid? && ShimDefect(spec, name, p)
    ensures p in PullPolicyProblem(spec.helper) <==> p.PullPolicyInvalid? && ShimDefect(spec, name, p)
  {
    hide Defect, FieldDefect, FileDefect, MatchesModePattern, ResolveToken;
  }

  lemma ParametersReported(spec: ShimSpec, name: string, p: ShimProblem)
    ensures p in Wrap(Problems(spec.parameters)) <==> p.ParameterProblem? && ShimDefect(spec, name, p)
  {
    WrapExact(Problems(spec.parameters), p);
    if p.ParameterProblem? {
      ParameterReports(spec.parameters, p.problem);
    }
    hide Problems, Defect, FieldDefect, FileDefect, ResolveToken, MatchesModePattern, Wrap;
  }

  lemma TokenReported(spec: ShimSpec, name: string, p: ShimProblem)
    ensures p in TokenProblem(name, spec.token) <==> p.TokenInvalid? && ShimDefect(spec, name, p)
  {
    TokenReports(name, spec.token, p);
    hide Defect, FieldDefect, FileDefect, ResolveToken, MatchesModePattern, TokenProblem;
  }

  lemma FieldsReported(spec: ShimSpec, name: string, p: ShimProblem)
    ensures p in AllFieldProblems(TemplatedFields(spec), Known(spec)) <==> FieldKind(p) && ShimDefect(spec, name, p)
  {
    FieldReports(spec, p);
    assert FieldDefect(spec, p) ==> FieldKind(p);
    hide Defect, FieldDefect, FileDefect, ResolveToken, MatchesModePattern, AllFieldProblems, TemplatedFields, Known;
  }

  lemma FilesReported(spec: ShimSpec, name: string, p: ShimProblem)
    ensures p in AllFileProblems(spec.inject.files, ResolveToken(name, spec.token).mountPath)
            <==> FileKind(p) && ShimDefect(spec, name, p)
  {
    var fs, at := spec.inject.files, ResolveToken(name, spec.token).mountPath;
    FileReports(fs, at, p);
    forall i | 0 <= i < |fs| ensures FileDefect(fs, i, at, p) ==> FileKind(p) {
      FileDefectKind(fs, i, at, p);
    }
    hide Defect, FieldDefect, FileDefect, ResolveToken, MatchesModePattern, AllFileProblems;
  }

  lemma FileDefectKind(fs: seq<FileSpec>, i: nat, mountPath: string, p: ShimProblem)
    requires i < |fs|
    ensures FileDefect(fs, i, mountPath, p) ==> FileKind(p)
  {
    hide MatchesModePattern;
  }

  /** A shim's problems: exactly its defects. */
  lemma ShimReports(spec: ShimSpec, name: string, p: ShimProblem)
    ensures p in ShimProblems(spec, name) <==> ShimDefect(spec, name, p)
  {
    SmallReports(spec, name, p);
    ParametersReported(spec, name, p);
    TokenReported(spec, name, p);
    FieldsReported(spec, name, p);
    FilesReported(spec, name, p);
    hide Problems, TokenProblem, ResolveToken, AllFieldProblems, TemplatedFields, Known, AllFileProblems, Wrap,
         ShimDefect, SelectorsValid, PullPolicyProblem;
  }
}
