/**
  From a shim and its resolved values to a fully rendered plan, and exactly when that succeeds.
 */
module Plans {
  import opened Text
  import opened Keys
  import opened Paths
  import opened FileModes
  import opened Templates
  import opened Params
  import opened Specs
  import opened Pods
  import Injection
  import opened Delivery
  import HelperConf

  type Token = Injection.Token
  type Plan = Injection.Plan

  const DEFAULT_TOKEN_VOLUME_PREFIX := "oidcshim-token-"
  const DEFAULT_TOKEN_FILE_NAME := "token"
  const DEFAULT_TOKEN_FILE_MODE := "0644"
  const DEFAULT_SERVICE_ACCOUNT := "default"

  function ResolveToken(shimName: string, spec: TokenSpec): (tok: Token)
    ensures tok.volumeName != "" && tok.mountPath != "" && tok.fileName != "" && tok.fileMode != ""
  {
    Injection.Token(
      if spec.volumeName == "" then DEFAULT_TOKEN_VOLUME_PREFIX + shimName else spec.volumeName,
      if spec.mountPath == "" then JoinPath(TOKEN_ROOT, shimName) else spec.mountPath,
      if spec.fileName == "" then DEFAULT_TOKEN_FILE_NAME else spec.fileName,
      if spec.fileMode == "" then DEFAULT_TOKEN_FILE_MODE else spec.fileMode)
  }

  function BuiltinsFor(shimName: string, serviceAccount: string, podNamespace: string, tok: Token): Builtins
  {
    Builtins(podNamespace, if serviceAccount == "" then DEFAULT_SERVICE_ACCOUNT else serviceAccount, shimName,
             tok.mountPath, TokenPath(tok))
  }

  datatype BuildError =
    | AudienceFails
    | ExtraAudienceFails(i: nat)
    | EnvFails(i: nat)
    | FileFails(i: nat)
    | PathIsTokenMount(i: nat)
    | PathRepeated(i: nat)
    | PathUnderTokenMount(i: nat)
    | ModeInvalid(i: nat)
    | ConfFails(error: HelperConf.ConfError)
    | TooLarge(bytes: nat)

  datatype Built<+T> = Good(value: T) | Bad(error: BuildError)

  /* ---------- the pieces, each over a prefix of its list ---------- */

  function ExtraAudiences(ts: seq<Template>, v: Values): Built<seq<string>>
  {
    if ts == [] then Good([])
    else
      match ExtraAudiences(ts[..|ts| - 1], v)
      case Bad(e) => Bad(e)
      case Good(before) =>
        match RenderTemplate(ts[|ts| - 1], v)
        case None => Bad(ExtraAudienceFails(|ts| - 1))
        case Some(x) => Good(before + [x])
  }

  function EnvVars(es: seq<EnvSpec>, v: Values): Built<seq<EnvVar>>
  {
    if es == [] then Good([])
    else
      match EnvVars(es[..|es| - 1], v)
      case Bad(e) => Bad(e)
      case Good(before) =>
        match RenderTemplate(es[|es| - 1].value, v)
        case None => Bad(EnvFails(|es| - 1))
        case Some(x) => Good(before + [EnvVar(es[|es| - 1].name, x)])
  }

  function FileMode(f: FileSpec): string { if f.mode == "" then DEFAULT_FILE_MODE else f.mode }

  function PathSet(fs: seq<FileSpec>, mountPath: string): set<string>
  {
    {mountPath} + (set i | 0 <= i < |fs| :: fs[i].path)
  }

  /** One file after the earlier ones: render, path checks, mode check, in the code's order. */
  function OneFile(f: FileSpec, i: nat, v: Values, mountPath: string, seen: set<string>): Built<Injection.RenderedFile>
  {
    match RenderTemplate(f.content, v)
    case None => Bad(FileFails(i))
    case Some(content) =>
      if f.path in seen then Bad(if f.path == mountPath then PathIsTokenMount(i) else PathRepeated(i))
      else if (mountPath + "/") <= f.path then Bad(PathUnderTokenMount(i))
      else if ParseFileMode(FileMode(f)).None? then Bad(ModeInvalid(i))
      else Good(Injection.RenderedFile(f.path, content, FileMode(f)))
  }

  function Files(fs: seq<FileSpec>, v: Values, mountPath: string): Built<seq<Injection.RenderedFile>>
  {
    if fs == [] then Good([])
    else
      var front := fs[..|fs| - 1];
      match Files(front, v, mountPath)
      case Bad(e) => Bad(e)
      case Good(before) =>
        match OneFile(fs[|fs| - 1], |fs| - 1, v, mountPath, PathSet(front, mountPath))
        case Bad(e) => Bad(e)
        case Good(f) => Good(before + [f])
  }

  /* ---------- overrides ---------- */

  function Override(value: string, default: string): string { if value != "" then value else default }

  function CsiDriver(spec: ShimSpec, d: Defaults): string
  {
    if spec.spiffe.Some? then Override(spec.spiffe.value.csiDriver, d.csiDriver) else d.csiDriver
  }

  function SocketMountPath(spec: ShimSpec, d: Defaults): string
  {
    if spec.spiffe.Some? then Override(spec.spiffe.value.socketMountPath, d.socketMountPath) else d.socketMountPath
  }

  function SocketFile(spec: ShimSpec, d: Defaults): string
  {
    if spec.spiffe.Some? then Override(spec.spiffe.value.socketFile, d.socketFile) else d.socketFile
  }

  function HelperImage(spec: ShimSpec, d: Defaults): string
  {
    if spec.helper.Some? then Override(spec.helper.value.image, d.helperImage) else d.helperImage
  }

  function ConfFor(spec: ShimSpec, tok: Token, d: Defaults, audience: string, extras: seq<string>): HelperConf.Config
  {
    HelperConf.Config(JoinPath(SocketMountPath(spec, d), SocketFile(spec, d)), tok.mountPath, audience, extras,
                      tok.fileName, tok.fileMode)
  }

  function Assemble(shim: Shim, tok: Token, d: Defaults, conf: string, files: seq<Injection.RenderedFile>,
                    env: seq<EnvVar>): Plan
  {
    Injection.Plan(shim.id.name, ShimKey(shim.id), shim.id.ClusterWide?, tok, conf, files, env,
                   shim.spec.inject.containers, CsiDriver(shim.spec, d), SocketMountPath(shim.spec, d),
                   SocketFile(shim.spec, d), HelperImage(shim.spec, d))
  }

  function Finish(shim: Shim, tok: Token, d: Defaults, audience: string, extras: seq<string>,
                  files: seq<Injection.RenderedFile>, env: seq<EnvVar>): Built<Plan>
  {
    match HelperConf.Render(ConfFor(shim.spec, tok, d, audience, extras))
    case Err(e) => Bad(ConfFails(e))
    case Ok(conf) =>
      var bytes := Injection.ContentBytes(files) + |conf|;
      if d.maxRenderedBytes > 0 && bytes > d.maxRenderedBytes then Bad(TooLarge(bytes))
      else Good(Assemble(shim, tok, d, conf, files, env))
  }

  /** The whole construction: audience, extra audiences, variables, files, configuration, size. */
  function Build(shim: Shim, v: Values, tok: Token, d: Defaults): Built<Plan>
  {
    match RenderTemplate(shim.spec.audience, v)
    case None => Bad(AudienceFails)
    case Some(audience) =>
      match ExtraAudiences(shim.spec.extraAudiences, v)
      case Bad(e) => Bad(e)
      case Good(extras) =>
        match EnvVars(shim.spec.inject.env, v)
        case Bad(e) => Bad(e)
        case Good(env) =>
          match Files(shim.spec.inject.files, v, tok.mountPath)
          case Bad(e) => Bad(e)
          case Good(files) => Finish(shim, tok, d, audience, extras, files, env)
  }

  /* ---------- the loops ---------- */

  method RenderExtraAudiences(ts: seq<Template>, v: Values) returns (r: Built<seq<string>>)
    ensures r == ExtraAudiences(ts, v)
  {
    hide RenderTemplate;
    var out: seq<string> := [];
    for i := 0 to |ts|
      invariant ExtraAudiences(ts[..i], v) == Good(out)
    {
      assert ts[..i + 1][..i] == ts[..i];
      var x := RenderTemplate(ts[i], v);
      if x.None? {
        assert ExtraAudiences(ts[..i + 1], v) == Bad(ExtraAudienceFails(i));
        ExtraAudienceStops(ts, v, i + 1);
        return Bad(ExtraAudienceFails(i));
      }
      out := out + [x.value];
    }
    assert ts[..|ts|] == ts;
    r := Good(out);
  }

  lemma {:induction false} ExtraAudienceStops(ts: seq<Template>, v: Values, n: nat)
    requires n <= |ts| && ExtraAudiences(ts[..n], v).Bad?
    ensures ExtraAudiences(ts, v) == ExtraAudiences(ts[..n], v)
    decreases |ts|
  {
    hide RenderTemplate;
    if n == |ts| {
      assert ts[..n] == ts;
    } else {
      assert ts[..|ts| - 1][..n] == ts[..n];
      ExtraAudienceStops(ts[..|ts| - 1], v, n);
    }
  }

  method RenderEnv(es: seq<EnvSpec>, v: Values) returns (r: Built<seq<EnvVar>>)
    ensures r == EnvVars(es, v)
  {
    hide RenderTemplate;
    var out: seq<EnvVar> := [];
    for i := 0 to |es|
      invariant EnvVars(es[..i], v) == Good(out)
    {
      assert es[..i + 1][..i] == es[..i];
      var x := RenderTemplate(es[i].value, v);
      if x.None? {
        assert EnvVars(es[..i + 1], v) == Bad(EnvFails(i));
        EnvStops(es, v, i + 1);
        return Bad(EnvFails(i));
      }
      out := out + [EnvVar(es[i].name, x.value)];
    }
    assert es[..|es|] == es;
    r := Good(out);
  }

  lemma {:induction false} EnvStops(es: seq<EnvSpec>, v: Values, n: nat)
    requires n <= |es| && EnvVars(es[..n], v).Bad?
    ensures EnvVars(es, v) == EnvVars(es[..n], v)
    decreases |es|
  {
    hide RenderTemplate;
    if n == |es| {
      assert es[..n] == es;
    } else {
      assert es[..|es| - 1][..n] == es[..n];
      EnvStops(es[..|es| - 1], v, n);
    }
  }

  lemma PathSetSnoc(fs: seq<FileSpec>, f: FileSpec, mountPath: string)
    ensures PathSet(fs + [f], mountPath) == PathSet(fs, mountPath) + {f.path}
    ensures PathSet([], mountPath) == {mountPath}
  {
    var all := fs + [f];
    assert all[|fs|] == f && forall i :: 0 <= i < |fs| ==> all[i] == fs[i];
    forall x | x in PathSet(fs, mountPath) + {f.path} ensures x in PathSet(all, mountPath) {
      if x != mountPath && x != f.path {
        var i :| 0 <= i < |fs| && fs[i].path == x;
        assert all[i].path == x;
      }
    }
  }

  /** The file loop, with its map of seen paths and its running byte count. */
  method RenderFiles(fs: seq<FileSpec>, v: Values, mountPath: string)
    returns (r: Built<seq<Injection.RenderedFile>>, bytes: nat)
    ensures r == Files(fs, v, mountPath)
    ensures r.Good? ==> bytes == Injection.ContentBytes(r.value)
  {
    hide OneFile, PathSet, Files, Injection.ContentBytes;
    var out: seq<Injection.RenderedFile> := [];
    bytes := 0;
    NoFiles(v, mountPath);
    var seen := {mountPath};
    assert PathSet([], mountPath) == {mountPath} by { NoPaths(mountPath); }
    for i := 0 to |fs|
      invariant Files(fs[..i], v, mountPath) == Good(out)
      invariant seen == PathSet(fs[..i], mountPath)
      invariant bytes == Injection.ContentBytes(out)
    {
      assert fs[..i + 1] == fs[..i] + [fs[i]];
      PathSetSnoc(fs[..i], fs[i], mountPath);
      FilesSnoc(fs[..i], fs[i], v, mountPath);
      var f := OneFile(fs[i], i, v, mountPath, seen);
      if f.Bad? {
        FilesStop(fs, v, mountPath, i + 1);
        return Bad(f.error), 0;
      }
      seen := seen + {fs[i].path};
      ContentBytesSnoc(out, f.value);
      out := out + [f.value];
      bytes := bytes + |f.value.content|;
    }
    assert fs[..|fs|] == fs;
    r := Good(out);
  }

  lemma {:induction false} NoFiles(v: Values, mountPath: string)
    ensures Files([], v, mountPath) == Good([]) && Injection.ContentBytes([]) == 0
  {
  }

  lemma {:induction false} FilesSnoc(fs: seq<FileSpec>, f: FileSpec, v: Values, mountPath: string)
    ensures Files(fs + [f], v, mountPath)
            == match Files(fs, v, mountPath)
               case Bad(e) => Bad(e)
               case Good(before) =>
                 match OneFile(f, |fs|, v, mountPath, PathSet(fs, mountPath))
                 case Bad(e) => Bad(e)
                 case Good(x) => Good(before + [x])
  {
    hide OneFile, PathSet;
    assert (fs + [f])[..|fs|] == fs;
  }

  lemma {:induction false} ContentBytesSnoc(files: seq<Injection.RenderedFile>, f: Injection.RenderedFile)
    ensures Injection.ContentBytes(files + [f]) == Injection.ContentBytes(files) + |f.content|
  {
    assert (files + [f])[..|files|] == files;
  }

  lemma NoPaths(mountPath: string)
    ensures PathSet([], mountPath) == {mountPath}
  {
  }

  lemma {:induction false} FilesStop(fs: seq<FileSpec>, v: Values, mountPath: string, n: nat)
    requires n <= |fs| && Files(fs[..n], v, mountPath).Bad?
    ensures Files(fs, v, mountPath) == Files(fs[..n], v, mountPath)
    decreases |fs|
  {
    hide OneFile, PathSet;
    if n == |fs| {
      assert fs[..n] == fs;
    } else {
      assert fs[..|fs| - 1][..n] == fs[..n];
      FilesStop(fs[..|fs| - 1], v, mountPath, n);
    }
  }

  method BuildPlan(shim: Shim, v: Values, tok: Token, d: Defaults) returns (r: Built<Plan>)
    ensures r == Build(shim, v, tok, d)
  {
    hide RenderTemplate, ExtraAudiences, EnvVars, Files, ConfFor, Assemble, HelperConf.Render;
    var audience := RenderTemplate(shim.spec.audience, v);
    if audience.None? {
      return Bad(AudienceFails);
    }
    var extras := RenderExtraAudiences(shim.spec.extraAudiences, v);
    if extras.Bad? {
      return Bad(extras.error);
    }
    var env := RenderEnv(shim.spec.inject.env, v);
    if env.Bad? {
      return Bad(env.error);
    }
    var files, bytes := RenderFiles(shim.spec.inject.files, v, tok.mountPath);
    if files.Bad? {
      return Bad(files.error);
    }
    var conf := HelperConf.RenderConfig(ConfFor(shim.spec, tok, d, audience.value, extras.value));
    if conf.Err? {
      return Bad(ConfFails(conf.error));
    }
    bytes := bytes + |conf.text|;
    if d.maxRenderedBytes > 0 && bytes > d.maxRenderedBytes {
      return Bad(TooLarge(bytes));
    }
    r := Good(Assemble(shim, tok, d, conf.text, files.value, env.value));
  }

  /* ---------- exactly when files are accepted ---------- */

  /** Distinct paths, none at or under the token directory. */
  predicate PathsFine(fs: seq<FileSpec>, mountPath: string)
  {
    && (forall i, j :: 0 <= i < j < |fs| ==> fs[i].path != fs[j].path)
    && (forall i :: 0 <= i < |fs| ==> !AtOrUnder(mountPath, fs[i].path))
  }

  predicate FilesRender(fs: seq<FileSpec>, v: Values)
  {
    forall i :: 0 <= i < |fs| ==> RenderTemplate(fs[i].content, v).Some?
  }

  predicate ModesParse(fs: seq<FileSpec>)
  {
    forall i :: 0 <= i < |fs| ==> ParseFileMode(FileMode(fs[i])).Some?
  }

  lemma PathsFineSnoc(fs: seq<FileSpec>, f: FileSpec, mountPath: string)
    ensures PathsFine(fs + [f], mountPath)
            <==> PathsFine(fs, mountPath) && f.path !in PathSet(fs, mountPath) && !((mountPath + "/") <= f.path)
  {
    var all := fs + [f];
    assert all[|fs|] == f && forall i :: 0 <= i < |fs| ==> all[i] == fs[i];
    if PathsFine(all, mountPath) {
      forall i | 0 <= i < |fs| ensures fs[i].path != f.path {
        assert all[i].path != all[|fs|].path;
      }
      assert !AtOrUnder(mountPath, all[|fs|].path);
      forall i | 0 <= i < |fs| ensures !AtOrUnder(mountPath, fs[i].path) {
        assert !AtOrUnder(mountPath, all[i].path);
      }
    }
    if PathsFine(fs, mountPath) && f.path !in PathSet(fs, mountPath) && !((mountPath + "/") <= f.path) {
      forall i | 0 <= i < |fs| ensures fs[i].path != f.path {
        assert fs[i].path in PathSet(fs, mountPath);
      }
    }
  }

  lemma FilesRenderSnoc(fs: seq<FileSpec>, f: FileSpec, v: Values)
    ensures FilesRender(fs + [f], v) <==> FilesRender(fs, v) && RenderTemplate(f.content, v).Some?
    ensures ModesParse(fs + [f]) <==> ModesParse(fs) && ParseFileMode(FileMode(f)).Some?
  {
    hide RenderTemplate, ParseFileMode, FileMode;
    var all := fs + [f];
    assert all[|fs|] == f && forall i :: 0 <= i < |fs| ==> all[i] == fs[i];
  }

  /** The file loop succeeds exactly when contents render, paths are fine and modes parse. */
  lemma {:induction false} FilesExact(fs: seq<FileSpec>, v: Values, mountPath: string)
    ensures Files(fs, v, mountPath).Good? <==> FilesRender(fs, v) && PathsFine(fs, mountPath) && ModesParse(fs)
    ensures var r := Files(fs, v, mountPath);
            r.Good? ==> |r.value| == |fs| && forall i :: 0 <= i < |fs| ==>
              Some(r.value[i]) == RenderedAs(fs[i], v)
    ensures Files(fs, v, mountPath).Bad? && PathsFine(fs, mountPath) && ModesParse(fs) ==>
              Files(fs, v, mountPath).error.FileFails?
  {
    if fs != [] {
      var front, f := fs[..|fs| - 1], fs[|fs| - 1];
      FilesExact(front, v, mountPath);
      assert fs == front + [f];
      hide PathsFine, FilesRender, ModesParse, RenderTemplate, ParseFileMode, FileMode, PathSet, Files, OneFile,
           RenderedAs;
      PathsFineSnoc(front, f, mountPath);
      FilesRenderSnoc(front, f, v);
      FilesSnoc(front, f, v, mountPath);
      OneFileExact(f, |front|, v, mountPath, PathSet(front, mountPath));
    }
  }

  lemma OneFileExact(f: FileSpec, i: nat, v: Values, mountPath: string, seen: set<string>)
    ensures var r := OneFile(f, i, v, mountPath, seen);
            && (r.Good? <==> RenderTemplate(f.content, v).Some? && f.path !in seen && !((mountPath + "/") <= f.path)
                             && ParseFileMode(FileMode(f)).Some?)
            && (r.Good? ==> Some(r.value) == RenderedAs(f, v))
            && (r.Bad? && RenderTemplate(f.content, v).None? ==> r.error.FileFails?)
  {
    hide RenderTemplate, ParseFileMode, FileMode;
  }

  function RenderedAs(f: FileSpec, v: Values): Option<Injection.RenderedFile>
  {
    var content := RenderTemplate(f.content, v);
    if content.None? then None else Some(Injection.RenderedFile(f.path, content.value, FileMode(f)))
  }

  /* ---------- what a built plan promises to the injection engine ---------- */

  /** A setting of the shim's own is used when it is there and not empty, the default otherwise. */
  predicate Takes(given: string, default: string, used: string)
  {
    (given != "" ==> used == given) && (given == "" ==> used == default)
  }

  /** The shim's overrides come before the operator's defaults, setting by setting. */
  predicate Settings(spec: ShimSpec, d: Defaults, plan: Plan)
  {
    && (spec.spiffe.None? ==>
          && plan.csiDriver == d.csiDriver && plan.socketMountPath == d.socketMountPath
          && plan.socketFile == d.socketFile)
    && (spec.spiffe.Some? ==>
          && Takes(spec.spiffe.value.csiDriver, d.csiDriver, plan.csiDriver)
          && Takes(spec.spiffe.value.socketMountPath, d.socketMountPath, plan.socketMountPath)
          && Takes(spec.spiffe.value.socketFile, d.socketFile, plan.socketFile))
    && (spec.helper.None? ==> plan.helperImage == d.helperImage)
    && (spec.helper.Some? ==> Takes(spec.helper.value.image, d.helperImage, plan.helperImage))
    && plan.containers == spec.inject.containers
  }

  lemma AssembledSettings(shim: Shim, tok: Token, d: Defaults, conf: string, files: seq<Injection.RenderedFile>,
                          env: seq<EnvVar>)
    ensures Settings(shim.spec, d, Assemble(shim, tok, d, conf, files, env))
  {
    hide ShimKey;
  }

  /** The file at its path with its rendered content, and the default mode where none is given. */
  predicate Rendered(f: FileSpec, v: Values, file: Injection.RenderedFile)
  {
    file.path == f.path && RenderTemplate(f.content, v) == Some(file.content) && Takes(f.mode, "0644", file.mode)
  }

  /** Where a spec leaves the token's place open it is derived from the shim's name. */
  lemma TokenDefaults(shimName: string, spec: TokenSpec)
    requires ProperSegment(shimName)
    ensures var tok := ResolveToken(shimName, spec);
            && Takes(spec.volumeName, "oidcshim-token-" + shimName, tok.volumeName)
            && Takes(spec.mountPath, "/var/run/secrets/oidcshim/" + shimName, tok.mountPath)
            && Takes(spec.fileName, "token", tok.fileName) && Takes(spec.fileMode, "0644", tok.fileMode)
  {
    TokenRootProper();
    TokenRootText();
    hide JoinPath, AbsPath;
    JoinSegment(TOKEN_ROOT_SEGMENTS, shimName);
    assert "/var/run/secrets/oidcshim" + "/" == "/var/run/secrets/oidcshim/";
  }

  lemma FinePathsDistinct(fs: seq<FileSpec>, files: seq<Injection.RenderedFile>, mountPath: string)
    requires PathsFine(fs, mountPath) && |files| == |fs|
    requires forall i :: 0 <= i < |fs| ==> files[i].path == fs[i].path
    ensures Distinct([mountPath] + Injection.FilePaths(files))
  {
    var paths := [mountPath] + Injection.FilePaths(files);
    forall i, j | 0 <= i < j < |paths| ensures paths[i] != paths[j] {
      assert paths[j] == files[j - 1].path == fs[j - 1].path;
      if i == 0 {
        assert !AtOrUnder(mountPath, fs[j - 1].path);
      } else {
        assert paths[i] == files[i - 1].path == fs[i - 1].path;
      }
    }
  }

  /**
    A built plan names its shim, takes every setting the shim overrides from the shim and every
    other from the defaults, mounts pairwise distinct paths outside the token directory, carries
    each file's rendered content with a parseable mode, and its byte count, the one checked
    against the cap, is what the injection engine will charge for it.
   */
  lemma BuiltPlan(shim: Shim, v: Values, tok: Token, d: Defaults)
    requires Build(shim, v, tok, d).Good?
    ensures var plan := Build(shim, v, tok, d).value;
            && plan.shimName == shim.id.name && plan.shimKey == ShimKey(shim.id) && plan.token == tok
            && plan.clusterScoped == shim.id.ClusterWide?
            && Settings(shim.spec, d, plan)
            && PathsDistinct(plan)
            && PathsFine(shim.spec.inject.files, tok.mountPath)
            && |plan.files| == |shim.spec.inject.files|
            && (forall i :: 0 <= i < |plan.files| ==> Some(plan.files[i]) == RenderedAs(shim.spec.inject.files[i], v))
            && (forall i :: 0 <= i < |plan.files| ==> Rendered(shim.spec.inject.files[i], v, plan.files[i]))
            && ModesParse(shim.spec.inject.files)
            && (d.maxRenderedBytes > 0 ==> Injection.RenderedBytes(plan) <= d.maxRenderedBytes)
  {
    var fs := shim.spec.inject.files;
    FilesExact(fs, v, tok.mountPath);
    BuiltSettings(shim, v, tok, d);
    hide RenderTemplate, ExtraAudiences, EnvVars, Files, PathsFine, ModesParse, FilesRender, HelperConf.Render,
         RenderedAs, Rendered, Settings;
    var plan := Build(shim, v, tok, d).value;
    forall i | 0 <= i < |fs| ensures plan.files[i].path == fs[i].path && Rendered(fs[i], v, plan.files[i]) {
      RenderedAsIs(fs[i], v, plan.files[i]);
    }
    FinePathsDistinct(fs, plan.files, tok.mountPath);
  }

  lemma RenderedAsIs(f: FileSpec, v: Values, file: Injection.RenderedFile)
    requires Some(file) == RenderedAs(f, v)
    ensures Rendered(f, v, file) && file.path == f.path
  {
    hide RenderTemplate;
  }

  lemma BuiltSettings(shim: Shim, v: Values, tok: Token, d: Defaults)
    requires Build(shim, v, tok, d).Good?
    ensures Settings(shim.spec, d, Build(shim, v, tok, d).value)
  {
    hide RenderTemplate, ExtraAudiences, EnvVars, Files, HelperConf.Render, Settings, Injection.ContentBytes;
    var plan := Build(shim, v, tok, d).value;
    AssembledSettings(shim, tok, d, plan.helperConf, plan.files, plan.env);
  }

  /* ---------- exactly when a plan is built ---------- */

  /** Every templated field of a spec: audience, extra audiences, variables, file contents. */
  function TemplatedFields(spec: ShimSpec): seq<Template>
  {
    [spec.audience] + spec.extraAudiences + EnvTemplates(spec.inject.env) + FileTemplates(spec.inject.files)
  }

  function EnvTemplates(es: seq<EnvSpec>): (r: seq<Template>)
    ensures |r| == |es| && forall i :: 0 <= i < |es| ==> r[i] == es[i].value
  {
    seq(|es|, i requires 0 <= i < |es| => es[i].value)
  }

  function FileTemplates(fs: seq<FileSpec>): (r: seq<Template>)
    ensures |r| == |fs| && forall i :: 0 <= i < |fs| ==> r[i] == fs[i].content
  {
    seq(|fs|, i requires 0 <= i < |fs| => fs[i].content)
  }

  predicate AllRender(ts: seq<Template>, v: Values)
  {
    forall i :: 0 <= i < |ts| ==> RenderTemplate(ts[i], v).Some?
  }

  lemma AllRenderAppend(a: seq<Template>, b: seq<Template>, v: Values)
    ensures AllRender(a + b, v) <==> AllRender(a, v) && AllRender(b, v)
  {
    hide RenderTemplate;
    var all := a + b;
    if AllRender(all, v) {
      forall i | 0 <= i < |a| ensures RenderTemplate(a[i], v).Some? {
        assert a[i] == all[i];
      }
      forall i | 0 <= i < |b| ensures RenderTemplate(b[i], v).Some? {
        assert b[i] == all[|a| + i];
      }
    }
  }

  lemma FieldsRenderExact(spec: ShimSpec, v: Values)
    ensures AllRender(TemplatedFields(spec), v)
            <==> && RenderTemplate(spec.audience, v).Some? && AllRender(spec.extraAudiences, v)
                 && AllRender(EnvTemplates(spec.inject.env), v) && FilesRender(spec.inject.files, v)
  {
    hide RenderTemplate;
    var audience, extras := [spec.audience], spec.extraAudiences;
    var env, files := EnvTemplates(spec.inject.env), FileTemplates(spec.inject.files);
    AllRenderAppend(audience + extras + env, files, v);
    AllRenderAppend(audience + extras, env, v);
    AllRenderAppend(audience, extras, v);
    assert AllRender(audience, v) <==> RenderTemplate(audience[0], v).Some?;
    assert AllRender(files, v) <==> FilesRender(spec.inject.files, v) by {
      assert forall i :: 0 <= i < |files| ==> files[i] == spec.inject.files[i].content;
    }
  }

  /** What a template contributes: its rendering, or nothing when it fails. */
  function TextOf(t: Template, v: Values): string
  {
    var r := RenderTemplate(t, v);
    if r.Some? then r.value else ""
  }

  function Texts(ts: seq<Template>, v: Values): (r: seq<string>)
    ensures |r| == |ts| && forall i :: 0 <= i < |ts| ==> r[i] == TextOf(ts[i], v)
  {
    seq(|ts|, i requires 0 <= i < |ts| => TextOf(ts[i], v))
  }

  function FileBytes(fs: seq<FileSpec>, v: Values): nat
  {
    if fs == [] then 0 else FileBytes(fs[..|fs| - 1], v) + |TextOf(fs[|fs| - 1].content, v)|
  }

  /** The bytes a shim costs on a pod with these values. */
  function SizeOf(shim: Shim, v: Values, tok: Token, d: Defaults): nat
  {
    var audience, extras := TextOf(shim.spec.audience, v), Texts(shim.spec.extraAudiences, v);
    FileBytes(shim.spec.inject.files, v) + |HelperConf.ConfText(ConfFor(shim.spec, tok, d, audience, extras))|
  }

  predicate WithinCap(shim: Shim, v: Values, tok: Token, d: Defaults)
  {
    d.maxRenderedBytes > 0 ==> SizeOf(shim, v, tok, d) <= d.maxRenderedBytes
  }

  /** The location a configuration needs besides its audience: socket, directory, file, mode. */
  predicate Locatable(spec: ShimSpec, tok: Token, d: Defaults)
  {
    && JoinPath(SocketMountPath(spec, d), SocketFile(spec, d)) != ""
    && tok.mountPath != "" && tok.fileName != ""
    && (tok.fileMode == "" || MatchesModePattern(tok.fileMode))
  }

  lemma {:induction false} ExtraAudiencesContents(ts: seq<Template>, v: Values)
    ensures ExtraAudiences(ts, v).Good? <==> AllRender(ts, v)
    ensures ExtraAudiences(ts, v).Good? ==> ExtraAudiences(ts, v).value == Texts(ts, v)
    ensures ExtraAudiences(ts, v).Bad? ==> ExtraAudiences(ts, v).error.ExtraAudienceFails?
  {
    hide RenderTemplate;
    if ts != [] {
      var n := |ts| - 1;
      ExtraAudiencesContents(ts[..n], v);
      assert ts == ts[..n] + [ts[n]];
      AllRenderAppend(ts[..n], [ts[n]], v);
      assert AllRender([ts[n]], v) <==> RenderTemplate([ts[n]][0], v).Some?;
      assert Texts(ts, v) == Texts(ts[..n], v) + [TextOf(ts[n], v)];
    }
  }

  lemma {:induction false} EnvVarsContents(es: seq<EnvSpec>, v: Values)
    ensures EnvVars(es, v).Good? <==> AllRender(EnvTemplates(es), v)
    ensures EnvVars(es, v).Good? ==>
              && |EnvVars(es, v).value| == |es|
              && forall i :: 0 <= i < |es| ==>
                   && EnvVars(es, v).value[i].name == es[i].name
                   && RenderTemplate(es[i].value, v) == Some(EnvVars(es, v).value[i].value)
    ensures EnvVars(es, v).Bad? ==> EnvVars(es, v).error.EnvFails?
  {
    hide RenderTemplate;
    if es != [] {
      var n := |es| - 1;
      EnvVarsContents(es[..n], v);
      assert EnvTemplates(es) == EnvTemplates(es[..n]) + [es[n].value];
      AllRenderAppend(EnvTemplates(es[..n]), [es[n].value], v);
      assert AllRender([es[n].value], v) <==> RenderTemplate([es[n].value][0], v).Some?;
    }
  }

  lemma {:induction false} FileBytesExact(fs: seq<FileSpec>, v: Values, files: seq<Injection.RenderedFile>)
    requires |files| == |fs| && forall i :: 0 <= i < |fs| ==> Some(files[i]) == RenderedAs(fs[i], v)
    ensures Injection.ContentBytes(files) == FileBytes(fs, v)
  {
    hide RenderTemplate, FileMode;
    if fs != [] {
      var n := |fs| - 1;
      FileBytesExact(fs[..n], v, files[..n]);
      assert Some(files[n]) == RenderedAs(fs[n], v);
    }
  }

  lemma ConfRenders(c: HelperConf.Config)
    ensures HelperConf.Render(c).Ok?
            <==> && c.agentAddress != "" && c.certDir != "" && c.jwtAudience != "" && c.jwtSvidFileName != ""
                 && (c.jwtSvidFileMode == "" || MatchesModePattern(c.jwtSvidFileMode))
    ensures HelperConf.Render(c).Ok? ==> HelperConf.Render(c).text == HelperConf.ConfText(c)
    ensures HelperConf.Render(c).Err? && c.agentAddress != "" && c.certDir != "" && c.jwtSvidFileName != ""
            && (c.jwtSvidFileMode == "" || MatchesModePattern(c.jwtSvidFileMode)) ==>
              HelperConf.Render(c).error == HelperConf.NoAudience && c.jwtAudience == ""
  {
    hide HelperConf.ConfText, MatchesModePattern;
  }

  lemma {:induction false} FinishExact(shim: Shim, v: Values, tok: Token, d: Defaults,
                                       files: seq<Injection.RenderedFile>, env: seq<EnvVar>)
    requires Injection.ContentBytes(files) == FileBytes(shim.spec.inject.files, v)
    ensures var audience, extras := TextOf(shim.spec.audience, v), Texts(shim.spec.extraAudiences, v);
            var r := Finish(shim, tok, d, audience, extras, files, env);
            && (r.Good? <==> audience != "" && Locatable(shim.spec, tok, d) && WithinCap(shim, v, tok, d))
            && (r.Bad? && Locatable(shim.spec, tok, d) ==>
                  r.error == if audience == "" then ConfFails(HelperConf.NoAudience)
                             else TooLarge(SizeOf(shim, v, tok, d)))
            && (r.Good? ==> r.value == Assemble(shim, tok, d,
                 HelperConf.ConfText(ConfFor(shim.spec, tok, d, audience, extras)), files, env))
  {
    hide HelperConf.ConfText, MatchesModePattern, JoinPath, HelperConf.Render, Injection.ContentBytes, FileBytes,
         TextOf, Texts, Assemble, SocketMountPath, SocketFile;
    ConfRenders(ConfFor(shim.spec, tok, d, TextOf(shim.spec.audience, v), Texts(shim.spec.extraAudiences, v)));
  }

  /** What a shim needs on a pod with these values, rule by rule. */
  predicate Buildable(shim: Shim, v: Values, tok: Token, d: Defaults)
  {
    && AllRender(TemplatedFields(shim.spec), v)
    && TextOf(shim.spec.audience, v) != ""
    && PathsFine(shim.spec.inject.files, tok.mountPath) && ModesParse(shim.spec.inject.files)
    && Locatable(shim.spec, tok, d)
    && WithinCap(shim, v, tok, d)
  }

  /** The errors that come from a template that does not render. */
  predicate TemplateFailure(e: BuildError)
  {
    e.AudienceFails? || e.ExtraAudienceFails? || e.EnvFails? || e.FileFails?
  }

  /**
    A plan is built exactly when every field renders, the audience is not empty, paths and modes
    are fine, the configuration is locatable and the size is within the cap.  For a spec whose
    paths, modes and location are fine the error is determined as well: a template failure when
    some field fails, else an empty audience, else the size.
   */
  lemma BuildExact(shim: Shim, v: Values, tok: Token, d: Defaults)
    ensures Build(shim, v, tok, d).Good? <==> Buildable(shim, v, tok, d)
    ensures var r, spec := Build(shim, v, tok, d), shim.spec;
            r.Bad? && PathsFine(spec.inject.files, tok.mountPath) && ModesParse(spec.inject.files)
            && Locatable(spec, tok, d) ==>
              if !AllRender(TemplatedFields(spec), v) then TemplateFailure(r.error)
              else if TextOf(spec.audience, v) == "" then r.error == ConfFails(HelperConf.NoAudience)
              else r.error == TooLarge(SizeOf(shim, v, tok, d))
  {
    var spec := shim.spec;
    FieldsRenderExact(spec, v);
    ExtraAudiencesContents(spec.extraAudiences, v);
    EnvVarsContents(spec.inject.env, v);
    FilesExact(spec.inject.files, v, tok.mountPath);
    var audience := RenderTemplate(spec.audience, v);
    assert audience.Some? ==> audience.value == TextOf(spec.audience, v);
    hide RenderTemplate, ExtraAudiences, EnvVars, Files, AllRender, PathsFine, ModesParse, FilesRender, TextOf,
         Texts, RenderedAs, Locatable, WithinCap, SizeOf, Finish, TemplatedFields;
    var files := Files(spec.inject.files, v, tok.mountPath);
    var env := EnvVars(spec.inject.env, v);
    if audience.Some? && ExtraAudiences(spec.extraAudiences, v).Good? && env.Good? && files.Good? {
      FileBytesExact(spec.inject.files, v, files.value);
      FinishExact(shim, v, tok, d, files.value, env.value);
    }
  }

  /* ---------- which error is reported ---------- */

  /** The i-th is the first of the templates that does not render. */
  predicate FirstFails(ts: seq<Template>, v: Values, i: nat)
  {
    i < |ts| && RenderTemplate(ts[i], v).None? && AllRender(ts[..i], v)
  }

  lemma {:induction false} ExtraAudienceError(ts: seq<Template>, v: Values)
    ensures var r := ExtraAudiences(ts, v); r.Bad? ==> r.error.ExtraAudienceFails? && FirstFails(ts, v, r.error.i)
  {
    hide RenderTemplate;
    if ts != [] {
      var n := |ts| - 1;
      ExtraAudienceError(ts[..n], v);
      ExtraAudiencesContents(ts[..n], v);
      var r := ExtraAudiences(ts, v);
      if r.Bad? && r.error.i < n {
        assert ts[..n][..r.error.i] == ts[..r.error.i];
      }
    }
  }

  lemma {:induction false} EnvError(es: seq<EnvSpec>, v: Values)
    ensures var r := EnvVars(es, v); r.Bad? ==> r.error.EnvFails? && FirstFails(EnvTemplates(es), v, r.error.i)
  {
    hide RenderTemplate;
    if es != [] {
      var n := |es| - 1;
      EnvError(es[..n], v);
      EnvVarsContents(es[..n], v);
      var r := EnvVars(es, v);
      assert EnvTemplates(es[..n]) == EnvTemplates(es)[..n];
      if r.Bad? && r.error.i < n {
        assert EnvTemplates(es)[..n][..r.error.i] == EnvTemplates(es)[..r.error.i];
      }
    }
  }

  predicate Repeats(fs: seq<FileSpec>, path: string)
  {
    exists j :: 0 <= j < |fs| && fs[j].path == path
  }

  /** What is wrong with a file that comes after these. */
  predicate FileError(e: BuildError, f: FileSpec, before: seq<FileSpec>, v: Values, mountPath: string)
  {
    var i := |before|;
    if RenderTemplate(f.content, v).None? then e == FileFails(i)
    else if f.path == mountPath then e == PathIsTokenMount(i)
    else if Repeats(before, f.path) then e == PathRepeated(i)
    else if AtOrUnder(mountPath, f.path) then e == PathUnderTokenMount(i)
    else e == ModeInvalid(i) && ParseFileMode(if f.mode == "" then "0644" else f.mode).None?
  }

  lemma OneFileError(f: FileSpec, before: seq<FileSpec>, v: Values, mountPath: string)
    ensures var r := OneFile(f, |before|, v, mountPath, PathSet(before, mountPath));
            r.Bad? ==> FileError(r.error, f, before, v, mountPath)
  {
    hide RenderTemplate, ParseFileMode;
    assert f.path in PathSet(before, mountPath) <==> f.path == mountPath || Repeats(before, f.path);
  }

  /** The n-th file is the first one refused, and this is why. */
  predicate FirstRefused(fs: seq<FileSpec>, v: Values, mountPath: string, n: nat, e: BuildError)
  {
    && n < |fs| && FilesRender(fs[..n], v) && PathsFine(fs[..n], mountPath) && ModesParse(fs[..n])
    && FileError(e, fs[n], fs[..n], v, mountPath)
  }

  lemma {:induction false} FilesError(fs: seq<FileSpec>, v: Values, mountPath: string) returns (n: nat)
    requires Files(fs, v, mountPath).Bad?
    ensures FirstRefused(fs, v, mountPath, n, Files(fs, v, mountPath).error)
  {
    hide OneFile, PathSet, FilesRender, PathsFine, ModesParse, FileError;
    var last := |fs| - 1;
    var front := fs[..last];
    if Files(front, v, mountPath).Bad? {
      n := FilesError(front, v, mountPath);
      assert front[..n] == fs[..n];
    } else {
      n := last;
      FilesExact(front, v, mountPath);
      OneFileError(fs[last], front, v, mountPath);
    }
  }

  /** Why a shim is not built: the first thing that fails, in the order things are rendered. */
  ghost predicate Explains(shim: Shim, v: Values, tok: Token, e: BuildError)
  {
    var spec := shim.spec;
    var audience, extras, env := RenderTemplate(spec.audience, v), spec.extraAudiences, EnvTemplates(spec.inject.env);
    if audience.None? then e == AudienceFails
    else if !AllRender(extras, v) then e.ExtraAudienceFails? && FirstFails(extras, v, e.i)
    else if !AllRender(env, v) then e.EnvFails? && FirstFails(env, v, e.i)
    else exists n :: FirstRefused(spec.inject.files, v, tok.mountPath, n, e)
  }

  /** Every failure before the configuration is written is reported as what failed first. */
  lemma BuildErrorExplained(shim: Shim, v: Values, tok: Token, d: Defaults)
    ensures var r := Build(shim, v, tok, d);
            r.Bad? && !r.error.ConfFails? && !r.error.TooLarge? ==> Explains(shim, v, tok, r.error)
    ensures !AllRender(TemplatedFields(shim.spec), v) || !PathsFine(shim.spec.inject.files, tok.mountPath)
            || !ModesParse(shim.spec.inject.files) ==>
              Build(shim, v, tok, d).Bad? && Explains(shim, v, tok, Build(shim, v, tok, d).error)
  {
    hide RenderTemplate, ExtraAudiences, EnvVars, Files, AllRender, PathsFine, ModesParse, FilesRender, FirstFails,
         FirstRefused, TemplatedFields, HelperConf.Render, Injection.ContentBytes, ConfFor, Assemble;
    var spec := shim.spec;
    FieldsRenderExact(spec, v);
    ExtraAudiencesContents(spec.extraAudiences, v);
    ExtraAudienceError(spec.extraAudiences, v);
    EnvVarsContents(spec.inject.env, v);
    EnvError(spec.inject.env, v);
    FilesExact(spec.inject.files, v, tok.mountPath);
    if Files(spec.inject.files, v, tok.mountPath).Bad? {
      var n := FilesError(spec.inject.files, v, tok.mountPath);
    }
  }

  /**
    The configuration a built plan carries, read back by the independent reader, requests exactly
    the rendered audiences, from the effective socket, into the token directory and file; and the
    plan's variables are the spec's, in order, with their rendered values.
   */
  lemma BuiltPlanMeaning(shim: Shim, v: Values, tok: Token, d: Defaults)
    requires Build(shim, v, tok, d).Good?
    ensures var plan, spec := Build(shim, v, tok, d).value, shim.spec;
            && |plan.env| == |spec.inject.env|
            && (forall i :: 0 <= i < |plan.env| ==>
                  plan.env[i].name == spec.inject.env[i].name
                  && RenderTemplate(spec.inject.env[i].value, v) == Some(plan.env[i].value))
            && HelperConf.ParseConf(plan.helperConf).Some?
            && (var conf := HelperConf.ParseConf(plan.helperConf).value;
                && RenderTemplate(spec.audience, v) == Some(conf.jwtAudience) && conf.jwtAudience != ""
                && |conf.jwtExtraAudiences| == |spec.extraAudiences|
                && (forall i :: 0 <= i < |spec.extraAudiences| ==>
                      RenderTemplate(spec.extraAudiences[i], v) == Some(conf.jwtExtraAudiences[i]))
                && conf.agentAddress == JoinPath(plan.socketMountPath, plan.socketFile)
                && conf.certDir == tok.mountPath && conf.jwtSvidFileName == tok.fileName
                && conf.jwtSvidFileMode == HelperConf.NormalMode(tok.fileMode))
  {
    hide RenderTemplate, ExtraAudiences, EnvVars, Files, HelperConf.Render, HelperConf.ParseConf, JoinPath,
         HelperConf.NormalMode, Injection.ContentBytes;
    var spec := shim.spec;
    EnvVarsContents(spec.inject.env, v);
    ExtraAudiencesContents(spec.extraAudiences, v);
    var audience, extras := RenderTemplate(spec.audience, v).value, ExtraAudiences(spec.extraAudiences, v).value;
    var conf := ConfFor(spec, tok, d, audience, extras);
    HelperConf.RenderRoundTrip(conf);
    RenderedNeedsAudience(conf);
  }

  lemma RenderedNeedsAudience(c: HelperConf.Config)
    requires HelperConf.Render(c).Ok?
    ensures c.jwtAudience != ""
  {
    hide HelperConf.ConfText;
  }
}
