/**
  Concrete failures of the conditions the code does not enforce.  Each runs shims through one
  admission request on a plain pod and states the property that is lost.  The resource schema
  admits all of these shims, and the controller accepts all but the one of
  `RejectedShimStillInjected`.
 */
module Witnesses {
  import opened Text
  import opened Keys
  import opened Bytes
  import opened Paths
  import opened Pods
  import opened Injection
  import opened Templates
  import opened Params
  import opened Specs
  import opened Selection
  import Plans
  import opened Validation
  import opened Greedy
  import opened Mounts
  import opened Delivery
  import opened Payload
  import opened Frame
  import opened Uniqueness
  import opened Listing
  import opened Handler
  import opened Admission
  import HelperConf
  import FileModes

  /* ---------- the setting ---------- */

  const SETTINGS := Defaults("helper", "csi.spiffe.io", "/spiffe-workload-api", "spire-agent.sock", 64 * 1024)

  const CREATE := Request(true, true, "ns")

  function BarePod(containerName: string): PodState
  {
    PodState("ns", "", [], [], [Container(containerName, "", [], None, [], [])], map[], map[])
  }

  predicate AnyLabels(labels: map<string, string>) { true }

  const EVERY_POD := SelectionSpec(None, None, None, Some(LabelSelector(true, AnyLabels)))

  /** The parts in which the shims below differ. */
  datatype Recipe = Recipe(name: string, volumeName: string, mountPath: string, fileName: string,
                           parameters: seq<Parameter>, env: seq<EnvSpec>, files: seq<FileSpec>,
                           containers: seq<string>)

  function Basic(volumeName: string, mountPath: string, files: seq<FileSpec>): Recipe
  {
    Recipe("x", volumeName, mountPath, "token", [], [], files, [])
  }

  function TextFile(path: string, text: string): FileSpec { FileSpec(path, Parsed(Plain(text)), "") }

  /** A shim for every pod of its namespace. */
  function ShimOf(r: Recipe): Shim
  {
    Shim(Namespaced("ns", r.name),
         ShimSpec(EVERY_POD, r.parameters, Parsed(Plain("aud")), [],
                  TokenSpec(r.volumeName, r.mountPath, r.fileName, ""),
                  InjectSpec(r.env, r.files, r.containers), None, None),
         "")
  }

  function NoConfigMaps(namespace: string, name: string): ConfigMapRead { Missing }

  function WitnessWorld(shims: seq<Shim>): World
  {
    World((ns: string) => false, (ns: string) => Absent, (ns: string, sa: string) => Absent,
          (ns: string) => Some(shims), Some([]), NoConfigMaps, SETTINGS)
  }

  const BARE_TARGET := Target(Metadata(map[], map[]), None, None)

  function TokenOf(r: Recipe): Token { Token(r.volumeName, r.mountPath, r.fileName, "0644") }

  /** A few files with short text and the default mode, outside the token directory. */
  predicate Modest(r: Recipe)
  {
    && r.volumeName != "" && r.mountPath != "" && r.fileName != ""
    && |r.mountPath| <= 100 && |r.fileName| <= 100 && |r.files| <= 32
    && (forall i :: 0 <= i < |r.files| ==> ShortText(r.files[i])) && TextBytes(r.files) <= 3200
    && Plans.PathsFine(r.files, r.mountPath)
  }

  predicate ShortText(f: FileSpec)
  {
    f.mode == "" && f.content.Parsed? && f.content.root.Plain? && |f.content.root.text| <= 100
  }

  /* ---------- building ---------- */

  lemma AgentAddress()
    ensures JoinPath("/spiffe-workload-api", "spire-agent.sock") == "/spiffe-workload-api/spire-agent.sock"
  {
    var base := ["spiffe-workload-api"];
    assert ProperSegment("spiffe-workload-api") && ProperSegment("spire-agent.sock");
    JoinSegment(base, "spire-agent.sock");
    hide JoinPath;
    assert AbsPath(base) == "/spiffe-workload-api";
    assert AbsPath(base + ["spire-agent.sock"]) == "/spiffe-workload-api/spire-agent.sock" by {
      var two := base + ["spire-agent.sock"];
      assert two[1..] == ["spire-agent.sock"];
      assert Join(two, "/") == "spiffe-workload-api" + "/" + Join(two[1..], "/");
    }
  }

  lemma ShortModes(fs: seq<FileSpec>)
    requires forall i :: 0 <= i < |fs| ==> ShortText(fs[i])
    ensures ModesMatch(fs) && Plans.ModesParse(fs)
  {
    assert FileModes.MatchesModePattern(FileModes.DEFAULT_FILE_MODE);
    assert forall i :: 0 <= i < |fs| ==> Plans.FileMode(fs[i]) == FileModes.DEFAULT_FILE_MODE;
    assert ModesMatch(fs);
    ModesMatchParse(fs);
  }

  /** The bytes of texts without actions, the same on every pod. */
  function TextBytes(fs: seq<FileSpec>): nat
  {
    if fs == [] then 0
    else
      var last := fs[|fs| - 1].content;
      TextBytes(fs[..|fs| - 1]) + if last.Parsed? && last.root.Plain? then |last.root.text| else 0
  }

  lemma {:induction false} SmallFiles(fs: seq<FileSpec>, v: Values)
    requires forall i :: 0 <= i < |fs| ==> ShortText(fs[i])
    ensures Plans.FileBytes(fs, v) == TextBytes(fs) <= 100 * |fs|
  {
    if fs != [] {
      SmallFiles(fs[..|fs| - 1], v);
      assert ShortText(fs[|fs| - 1]);
    }
  }

  lemma WitnessFieldsRender(r: Recipe, v: Values)
    requires Modest(r) && Plans.AllRender(Plans.EnvTemplates(r.env), v)
    ensures Plans.AllRender(Plans.TemplatedFields(ShimOf(r).spec), v)
    ensures Plans.TextOf(ShimOf(r).spec.audience, v) == "aud"
  {
    hide Plans.PathsFine;
    Plans.FieldsRenderExact(ShimOf(r).spec, v);
    assert RenderTemplate(ShimOf(r).spec.audience, v) == Some("aud");
    forall i | 0 <= i < |r.files| ensures RenderTemplate(r.files[i].content, v).Some? {
      assert ShortText(r.files[i]);
    }
  }

  lemma WitnessLocatable(r: Recipe)
    requires Modest(r)
    ensures Plans.Locatable(ShimOf(r).spec, TokenOf(r), SETTINGS)
  {
    assert FileModes.MatchesModePattern("0644");
    AgentAddress();
    hide JoinPath, FileModes.MatchesModePattern, Plans.PathsFine;
  }

  /** A shim costs little more than its file contents. */
  lemma {:induction false} WitnessSize(r: Recipe, v: Values)
    requires Modest(r)
    ensures Plans.SizeOf(ShimOf(r), v, TokenOf(r), SETTINGS)
            <= 400 + 4 * (|r.mountPath| + |r.fileName|) + Plans.FileBytes(r.files, v)
  {
    AgentAddress();
    assert Plans.TextOf(ShimOf(r).spec.audience, v) == "aud";
    hide JoinPath, Plans.FileBytes, HelperConf.ConfText, Plans.TextOf, Plans.PathsFine;
    HelperConf.ConfLength(Plans.ConfFor(ShimOf(r).spec, TokenOf(r), SETTINGS, "aud", []));
    assert Plans.Texts([], v) == [];
  }

  lemma WitnessToken(r: Recipe)
    requires r.volumeName != "" && r.mountPath != "" && r.fileName != ""
    ensures Plans.ResolveToken(r.name, ShimOf(r).spec.token) == TokenOf(r)
  {
  }

  lemma WitnessBuildable(r: Recipe, v: Values)
    requires Modest(r) && Plans.AllRender(Plans.EnvTemplates(r.env), v)
    ensures Plans.Buildable(ShimOf(r), v, TokenOf(r), SETTINGS)
  {
    WitnessFieldsRender(r, v);
    WitnessLocatable(r);
    WitnessSize(r, v);
    SmallFiles(r.files, v);
    ShortModes(r.files);
    hide Plans.AllRender, Plans.TextOf, Plans.Locatable, Plans.SizeOf, Plans.PathsFine, Plans.ModesParse,
         Plans.TemplatedFields, Plans.FileBytes;
  }

  /** What is known of the plan of such a shim. */
  predicate Reflects(plan: Plan, r: Recipe)
  {
    && plan.shimName == r.name && plan.token == TokenOf(r)
    && |plan.files| == |r.files| && (forall i :: 0 <= i < |r.files| ==> plan.files[i].path == r.files[i].path)
    && plan.containers == r.containers && plan.csiDriver == "csi.spiffe.io"
    && plan.socketMountPath == "/spiffe-workload-api"
    && RenderedBytes(plan) <= 400 + 4 * (|r.mountPath| + |r.fileName|) + TextBytes(r.files)
  }

  lemma WitnessBuilt(r: Recipe, v: Values) returns (plan: Plan)
    requires Modest(r) && Plans.AllRender(Plans.EnvTemplates(r.env), v)
    ensures Plans.Build(ShimOf(r), v, TokenOf(r), SETTINGS) == Plans.Good(plan)
    ensures Reflects(plan, r)
    ensures RenderedBytes(plan) == Plans.SizeOf(ShimOf(r), v, TokenOf(r), SETTINGS)
  {
    hide Plans.SizeOf, Plans.FileBytes, Plans.PathsFine, Plans.Buildable, ShortText, RenderedBytes, Plans.Build,
         Plans.AllRender, Plans.ModesParse, ShimKey, PathsDistinct, Plans.FileMode, RenderTemplate;
    WitnessBuildable(r, v);
    WitnessSize(r, v);
    SmallFiles(r.files, v);
    var shim, tok := ShimOf(r), TokenOf(r);
    Plans.BuildExact(shim, v, tok, SETTINGS);
    BuiltSize(shim, v, tok);
    Plans.BuiltPlan(shim, v, tok, SETTINGS);
    plan := Plans.Build(shim, v, tok, SETTINGS).value;
    forall i | 0 <= i < |r.files| ensures plan.files[i].path == r.files[i].path {
      assert Some(plan.files[i]) == Plans.RenderedAs(r.files[i], v);
    }
    PlanCopies(shim, v, tok);
  }

  /** What the builder measures is what the engine charges. */
  lemma BuiltSize(shim: Shim, v: Values, tok: Token)
    requires Plans.Build(shim, v, tok, SETTINGS).Good?
    ensures RenderedBytes(Plans.Build(shim, v, tok, SETTINGS).value) == Plans.SizeOf(shim, v, tok, SETTINGS)
  {
    var spec := shim.spec;
    Plans.ExtraAudiencesContents(spec.extraAudiences, v);
    Plans.FilesExact(spec.inject.files, v, tok.mountPath);
    hide RenderTemplate, Plans.ExtraAudiences, Plans.EnvVars, Plans.Files, Plans.AllRender, Plans.PathsFine,
         Plans.ModesParse, Plans.FilesRender, Plans.Texts, HelperConf.Render, Plans.RenderedAs, ContentBytes,
         Plans.FileBytes;
    var files, extras := Plans.Files(spec.inject.files, v, tok.mountPath).value, Plans.Texts(spec.extraAudiences, v);
    Plans.FileBytesExact(spec.inject.files, v, files);
    Plans.ConfRenders(Plans.ConfFor(spec, tok, SETTINGS, RenderTemplate(spec.audience, v).value, extras));
  }

  lemma PlanCopies(shim: Shim, v: Values, tok: Token)
    requires Plans.Build(shim, v, tok, SETTINGS).Good? && shim.spec.spiffe.None?
    ensures var plan := Plans.Build(shim, v, tok, SETTINGS).value;
            && plan.containers == shim.spec.inject.containers && plan.csiDriver == "csi.spiffe.io"
            && plan.socketMountPath == "/spiffe-workload-api"
  {
    hide RenderTemplate, Plans.ExtraAudiences, Plans.EnvVars, Plans.Files, HelperConf.Render;
  }

  /** The controller accepts such a shim when it has no parameters and no variables. */
  lemma WitnessValid(r: Recipe)
    requires Modest(r) && r.parameters == [] && r.env == [] && |r.name| <= MAX_SHIM_NAME_LENGTH
    ensures ValidShim(ShimOf(r).spec, r.name)
  {
    var spec := ShimOf(r).spec;
    WitnessToken(r);
    ShortModes(r.files);
    assert FileModes.MatchesModePattern("0644");
    hide FileModes.MatchesModePattern, Plans.ResolveToken, Plans.PathsFine, ModesMatch, Plans.ModesParse;
    var ts := Plans.TemplatedFields(spec);
    forall i | 0 <= i < |ts| ensures RefersOnlyTo(ts[i], Known(spec)) {
      if i > 0 {
        assert ts[i] == r.files[i - 1].content && ShortText(r.files[i - 1]);
      }
    }
  }

  /* ---------- matching and planning ---------- */

  lemma WitnessMatches(shim: Shim, t: Target)
    requires shim.spec.selection == EVERY_POD
    ensures Matches(shim.id.name, shim.spec.selection, t) == Some(true)
  {
    hide Enrolled;
  }

  function InputOf(r: Recipe): Input
  {
    InputFor(ShimOf(r), LookupFor(BARE_TARGET), "", "ns", Some(NoConfigMaps))
  }

  ghost predicate PlannedAs(shim: Shim, plan: Plan)
  {
    PlanFor(shim, LookupFor(BARE_TARGET), "", "ns", Some(NoConfigMaps), SETTINGS) == Planned(plan)
  }

  lemma WitnessPlanned(r: Recipe, v: Values) returns (plan: Plan)
    requires Modest(r) && Resolve(InputOf(r)) == Ok(v) && Plans.AllRender(Plans.EnvTemplates(r.env), v)
    ensures PlannedAs(ShimOf(r), plan) && Reflects(plan, r)
    ensures Plans.Build(ShimOf(r), v, TokenOf(r), SETTINGS) == Plans.Good(plan)
    ensures RenderedBytes(plan) == Plans.SizeOf(ShimOf(r), v, TokenOf(r), SETTINGS)
  {
    WitnessToken(r);
    hide Plans.Build, Resolve, RenderedBytes, Plans.ResolveToken, Modest, Plans.SizeOf, Reflects, Plans.BuiltinsFor;
    plan := WitnessBuilt(r, v);
  }

  lemma PlainPlanned(r: Recipe) returns (plan: Plan)
    requires Modest(r) && r.parameters == [] && r.env == []
    ensures PlannedAs(ShimOf(r), plan) && Reflects(plan, r)
  {
    var v := BuiltinValues(InputOf(r).builtins);
    NoParameters(InputOf(r));
    hide Modest, Resolve, Reflects, InputOf, RenderedBytes, Plans.SizeOf, Plans.Build;
    plan := WitnessPlanned(r, v);
  }

  lemma NoParameters(inp: Input)
    requires inp.parameters == []
    ensures Resolve(inp) == Ok(BuiltinValues(inp.builtins))
  {
    hide BuiltinValues;
  }

  /** Each shim matches the plain pod and is planned. */
  ghost predicate AllPlanned(shims: seq<Shim>, plans: seq<Plan>)
  {
    && |plans| == |shims|
    && forall i :: 0 <= i < |shims| ==> shims[i].spec.selection == EVERY_POD && PlannedAs(shims[i], plans[i])
  }

  lemma {:induction false} PlannedInOrder(w: World, shims: seq<Shim>, plans: seq<Plan>)
    requires w.getConfigMap == NoConfigMaps && w.defaults == SETTINGS && AllPlanned(shims, plans)
    ensures BuildPlans(w, "ns", "", BARE_TARGET, shims) == PlanList(plans, [])
  {
    hide Matches, PlanFor, LookupFor;
    if shims != [] {
      var n := |shims| - 1;
      PlannedInOrder(w, shims[..n], plans[..n]);
      WitnessMatches(shims[n], BARE_TARGET);
      assert plans == plans[..n] + [plans[n]];
    }
  }

  lemma BareReads(shims: seq<Shim>, podName: string)
    ensures var w, pod := WitnessWorld(shims), BarePod(podName);
            && w.getConfigMap == NoConfigMaps && w.defaults == SETTINGS
            && NamespaceOf(CREATE, pod) == "ns" && Gate(w, CREATE, pod).None?
            && PlansFor(w, "ns", pod) == Some(BuildPlans(w, "ns", "", BARE_TARGET, ListShims(shims, [])))
  {
    hide BuildPlans, ListShims;
  }

  lemma {:induction false} ListedAlone(shims: seq<Shim>)
    ensures ListShims(shims, []) == SortByName(shims)
  {
    assert SortByName([]) == [];
  }

  /** One request: the engine runs on the plans of the listed shims, in name order. */
  lemma {:induction false} WitnessHandled(shims: seq<Shim>, plans: seq<Plan>, podName: string)
    requires AllPlanned(SortByName(shims), plans) && Apply(BarePod(podName), plans).applied != []
    ensures var h, out := Handle(WitnessWorld(shims), CREATE, BarePod(podName)), Apply(BarePod(podName), plans);
            h.response.Patched? && h.response.applied == out.applied && h.pod == out.pod
  {
    hide Apply, BuildPlans, AllPlanned, SortByName, ListShims, WitnessWorld, BarePod, PlansFor, Gate, NamespaceOf;
    BareReads(shims, podName);
    ListedAlone(shims);
    PlannedInOrder(WitnessWorld(shims), SortByName(shims), plans);
  }

  /* ---------- accepting on a plain pod ---------- */

  lemma BareTargets(name: string, plan: Plan)
    ensures ResolveTargets(BarePod(name), plan).targets
            == if plan.containers == [] then [name] else Existing(BarePod(name).containers, plan.containers)
    ensures plan.containers == [] ==> ResolveTargets(BarePod(name), plan).requested == []
  {
    var pod := BarePod(name);
    assert ContainersFromAnnotation(pod.annotations) == [];
    if plan.containers == [] {
      assert ContainerNames(pod.containers) == [name];
    }
  }

  lemma BareCollisionFree(name: string, plan: Plan, targets: seq<string>)
    ensures CheckCollisions(BarePod(name), plan, [], targets).None?
  {
    var cs := BarePod(name).containers;
    MountProblemIff(cs, targets, MountPaths(plan));
    PathProblemIff(cs[0], MountPaths(plan));
    hide MountProblem, ConfigVolumeName, InitContainerName, RefreshContainerName;
  }

  lemma BareAccepts(name: string, plan: Plan)
    requires RenderedBytes(plan) <= MAX_POD_ANNOTATION_BYTES
    requires plan.containers == [] || Existing(BarePod(name).containers, plan.containers) != []
    ensures Refusal(0, Start(BarePod(name)), plan).None?
  {
    BareTargets(name, plan);
    BareCollisionFree(name, plan, ResolveTargets(BarePod(name), plan).targets);
    hide ResolveTargets, CheckCollisions, RenderedBytes;
  }

  lemma BareAdmissible(name: string)
    requires DnsLabel(name)
    ensures Admissible(BarePod(name)) && !Injected(BarePod(name))
  {
    assert BarePod(name).initContainers + BarePod(name).containers == BarePod(name).containers;
    MapBytesEmpty();
  }

  lemma ApplyOne(name: string, plan: Plan)
    requires Refusal(0, Start(BarePod(name)), plan).None?
    ensures Apply(BarePod(name), [plan]).applied == [plan]
  {
    var s := Start(BarePod(name));
    hide Step, Refusal;
    StepApplied(0, s, plan);
    MapBytesEmpty();
    assert [plan][..0] == [];
    assert Run(0, s, []) == s;
    assert Run(0, s, [plan]) == Step(0, s, plan);
  }

  lemma AllPlannedOne(shim: Shim, plan: Plan)
    requires shim.spec.selection == EVERY_POD && PlannedAs(shim, plan)
    ensures AllPlanned(SortByName([shim]), [plan])
  {
    hide PlannedAs;
    assert [shim][1..] == [] && SortByName([]) == [];
    assert SortByName([shim]) == [shim];
  }

  /** One planned shim on a plain pod is applied. */
  lemma OneApplied(podName: string, r: Recipe, plan: Plan)
    requires PlannedAs(ShimOf(r), plan) && Reflects(plan, r) && Modest(r)
    requires r.containers == [] || Existing(BarePod(podName).containers, r.containers) != []
    ensures var h := Handle(WitnessWorld([ShimOf(r)]), CREATE, BarePod(podName));
            && h.response.Patched? && h.response.applied == [plan] && h.pod == Apply(BarePod(podName), [plan]).pod
    ensures Apply(BarePod(podName), [plan]).applied == [plan]
  {
    hide Apply, Handle, RenderedBytes, BarePod, WitnessWorld, PlannedAs, AllPlanned, SortByName, Refusal, Existing,
         Plans.PathsFine, ShortText;
    BareAccepts(podName, plan);
    ApplyOne(podName, plan);
    AllPlannedOne(ShimOf(r), plan);
    WitnessHandled([ShimOf(r)], [plan], podName);
  }

  lemma BareShape(name: string, plan: Plan)
    requires plan.containers == []
    ensures |BarePod(name).containers| == 1 && BarePod(name).containers[0].mounts == []
    ensures ResolveTargets(BarePod(name), plan).targets == [name] && TargetIndex(BarePod(name), plan, 0) == 0
    ensures Reaches(BarePod(name), plan, 0)
  {
    BareTargets(name, plan);
    hide ResolveTargets;
    HitByTarget(BarePod(name).containers, [name], 0, 0);
  }

  lemma BareOutcome(podName: string, plan: Plan)
    requires Apply(BarePod(podName), [plan]).applied == [plan]
    ensures |Apply(BarePod(podName), [plan]).pod.containers| == 1
    ensures |Apply(BarePod(podName), [plan]).pod.initContainers| == 2
  {
    hide Run, MapBytes, HelperContainer, Injected;
    AppliedMeansNotInjected(BarePod(podName), [plan]);
    FinishedPod(BarePod(podName), [plan]);
    RunKeepsNames(MapBytes(BarePod(podName).annotations), Start(BarePod(podName)), [plan]);
    assert |ContainerNames(BarePod(podName).containers)| == 1;
  }

  /** What each witness with a single valid shim starts from. */
  lemma SingleWitness(podName: string, r: Recipe) returns (plan: Plan)
    requires Modest(r) && r.parameters == [] && r.env == [] && |r.name| <= MAX_SHIM_NAME_LENGTH
    requires DnsLabel(podName)
    requires r.containers == [] || Existing(BarePod(podName).containers, r.containers) != []
    ensures var pod := BarePod(podName);
            var h := Handle(WitnessWorld([ShimOf(r)]), CREATE, pod);
            && ValidShim(ShimOf(r).spec, r.name) && h.response.Patched? && h.response.applied == [plan]
            && h.pod == Apply(pod, [plan]).pod && Apply(pod, [plan]).applied == [plan]
            && |h.pod.containers| == 1 && |h.pod.initContainers| == 2
            && (Admissible(h.pod) <==> Considerate(pod, [plan]))
    ensures Reflects(plan, r)
  {
    hide Modest, Handle, Apply, Admissible, Considerate, ValidShim, Injected, BarePod, WitnessWorld, ShimOf,
         Reflects, Existing, PlannedAs, DnsLabel;
    WitnessValid(r);
    plan := PlainPlanned(r);
    OneApplied(podName, r, plan);
    BareAdmissible(podName);
    AdmittedPodsAdmissible(WitnessWorld([ShimOf(r)]), CREATE, BarePod(podName));
    BareOutcome(podName, plan);
  }

  lemma OneFile(volumeName: string, mountPath: string, path: string)
    requires volumeName != "" && mountPath != "" && |mountPath| <= 100 && !AtOrUnder(mountPath, path)
    ensures Modest(Basic(volumeName, mountPath, [TextFile(path, "text")]))
  {
  }

  lemma NoFile(volumeName: string, mountPath: string)
    requires volumeName != "" && mountPath != "" && |mountPath| <= 100
    ensures Modest(Basic(volumeName, mountPath, []))
  {
  }

  lemma AppIsLabel()
    ensures DnsLabel("app")
  {
  }

  /* ---------- what is lost on one container ---------- */

  lemma ReadsNothing(plan: Plan, path: string)
    requires Apply(BarePod("app"), [plan]).applied == [plan] && plan.containers == [] && PathsDistinct(plan)
    requires |plan.files| == 1 && plan.files[0].path == path
    requires ShadowsConfig(plan) || PlanObstructs(plan, FileMount(plan, 0), "")
    ensures var out := Apply(BarePod("app"), [plan]).pod;
            |out.containers| == 1 && ReadMounted(out, out.containers[0], path, "") == None
  {
    hide Apply, ReadMounted, ResolveTargets, BarePod, ShadowsConfig, PlanObstructs, FileMount, PathsDistinct,
         Obstructed, Reaches;
    var pod := BarePod("app");
    BareShape("app", plan);
    FilesDelivered(pod, [plan], 0, 0, 0);
    assert Reaches(pod, [plan][0], 0);
  }

  lemma TokenLost(plan: Plan)
    requires Apply(BarePod("app"), [plan]).applied == [plan] && plan.containers == []
    requires !TokenUnobstructed(plan) || PlanObstructs(plan, TokenMount(plan), plan.token.fileName)
    ensures var out := Apply(BarePod("app"), [plan]).pod;
            && |out.containers| == 1 && |out.initContainers| >= 1
            && !TokenReaches(out, out.containers[0], out.initContainers[0], plan)
  {
    hide Apply, ResolveTargets, BarePod, TokenUnobstructed, PlanObstructs, TokenMount, Obstructed, Reaches,
         TokenReaches;
    var pod := BarePod("app");
    BareShape("app", plan);
    TokenDelivered(pod, [plan], 0, 0, false);
    assert Reaches(pod, [plan][0], 0);
  }

  /* ---------- one valid shim ---------- */

  /** A token volume named like the own config volume: files cannot be read, the pod is refused. */
  lemma TokenMayTakeConfigName()
    ensures var shim := ShimOf(Basic("oidcshim-config-x", "/t", [TextFile("/f", "text")]));
            var h := Handle(WitnessWorld([shim]), CREATE, BarePod("app"));
            && ValidShim(shim.spec, "x") && h.response.Patched? && |h.pod.containers| == 1
            && ReadMounted(h.pod, h.pod.containers[0], "/f", "") == None
            && !Admissible(h.pod)
  {
    hide Modest, Handle, Apply, Admissible, ReadMounted, Blocked, ValidShim, BarePod, WitnessWorld, ShimOf,
         RenderedBytes, DnsLabel, AllFitting, WithinObjectLimit;
    assert "/t" + "/" == "/t/" && |"/f"| == 2 && "/f"[1] != "/t"[1];
    OneFile("oidcshim-config-x", "/t", "/f");
    AppIsLabel();
    var plan := SingleWitness("app", Basic("oidcshim-config-x", "/t", [TextFile("/f", "text")]));
    assert ConfigVolumeName("x") == "oidcshim-config-x";
    assert !TokenNameApart([plan][0]);
    ReadsNothing(plan, "/f");
  }

  /** A token volume named like the socket volume: the token does not reach the app. */
  lemma TokenMayTakeSocketName()
    ensures var shim := ShimOf(Basic("spiffe-workload-api", "/t", []));
            var h := Handle(WitnessWorld([shim]), CREATE, BarePod("app"));
            && ValidShim(shim.spec, "x") && h.response.Patched? && |h.response.applied| == 1
            && |h.pod.containers| == 1 && |h.pod.initContainers| == 2
            && !TokenReaches(h.pod, h.pod.containers[0], h.pod.initContainers[0], h.response.applied[0])
            && !Admissible(h.pod)
  {
    hide Modest, Handle, Apply, Admissible, TokenReaches, ValidShim, BarePod, WitnessWorld, ShimOf, RenderedBytes,
         InTheWay, PlanObstructs, TokenInside, DnsLabel, AllFitting, WithinObjectLimit;
    NoFile("spiffe-workload-api", "/t");
    AppIsLabel();
    var plan := SingleWitness("app", Basic("spiffe-workload-api", "/t", []));
    assert !TokenNameApart([plan][0]);
    TokenLost(plan);
  }

  /** A token mounted over the configuration directory: the helper does not find its configuration. */
  lemma TokenMayHideHelperConf()
    ensures var shim := ShimOf(Basic("v", "/etc/oidcshim", []));
            var h := Handle(WitnessWorld([shim]), CREATE, BarePod("app"));
            && ValidShim(shim.spec, "x") && h.response.Patched? && |h.pod.initContainers| == 2
            && ReadMounted(h.pod, h.pod.initContainers[0], CONFIG_MOUNT_PATH, HELPER_CONF_FILE) == None
            && !Admissible(h.pod)
  {
    hide Modest, Handle, Apply, Admissible, ReadMounted, ValidShim, BarePod, WitnessWorld, ShimOf, RenderedBytes,
         InTheWay, HelperContainer, DnsLabel, AllFitting, WithinObjectLimit;
    NoFile("v", "/etc/oidcshim");
    AppIsLabel();
    var plan := SingleWitness("app", Basic("v", "/etc/oidcshim", []));
    assert !HelperPathsApart([plan][0]);
    SamePathInTheWay(CONFIG_MOUNT_PATH, false, HELPER_CONF_FILE);
    HelperConfDelivered(BarePod("app"), [plan], 0, false);
  }

  /** Init container names are not compared with app container names. */
  lemma InitMayShadowApp()
    ensures var shim := ShimOf(Basic("v", "/t", []));
            var h := Handle(WitnessWorld([shim]), CREATE, BarePod("oidcshim-init-x"));
            ValidShim(shim.spec, "x") && h.response.Patched? && !Admissible(h.pod)
  {
    hide Modest, Handle, Apply, Admissible, ValidShim, WitnessWorld, ShimOf, RenderedBytes, AllFitting,
         WithinObjectLimit;
    NoFile("v", "/t");
    assert DnsLabel("oidcshim-init-x");
    hide DnsLabel;
    var plan := SingleWitness("oidcshim-init-x", Basic("v", "/t", []));
    assert InitContainerName([plan][0].shimName) == "oidcshim-init-x";
    assert ContainerNames(BarePod("oidcshim-init-x").containers)[0] == "oidcshim-init-x";
  }

  lemma BareTwice()
    ensures Existing(BarePod("app").containers, ["app", "app"]) == ["app", "app"]
  {
    var cs := BarePod("app").containers;
    assert ["app", "app"][..1] == ["app"] && ["app"][..0] == [];
    assert FindContainer(cs, "app") == Some(0);
    assert Existing(cs, ["app"]) == ["app"];
  }

  /** A container named twice is injected twice, and carries the token path twice. */
  lemma TargetsMayRepeat()
    ensures var shim := ShimOf(Basic("v", "/t", []).(containers := ["app", "app"]));
            var h := Handle(WitnessWorld([shim]), CREATE, BarePod("app"));
            ValidShim(shim.spec, "x") && h.response.Patched? && !Admissible(h.pod)
  {
    hide Modest, Handle, Apply, Admissible, ValidShim, WitnessWorld, RenderedBytes, BarePod, ResolveTargets, Existing,
         ShimOf, AllFitting, WithinObjectLimit, DnsLabel;
    BareTwice();
    var r := Basic("v", "/t", []).(containers := ["app", "app"]);
    assert Modest(r) by { NoFileFor(r); }
    AppIsLabel();
    var plan := SingleWitness("app", r);
    BareTargets("app", plan);
    var targets := ResolveTargets(BarePod("app"), [plan][0]).targets;
    assert targets[0] == targets[1];
  }

  lemma NoFileFor(r: Recipe)
    requires r.volumeName != "" && r.mountPath != "" && r.fileName != "" && r.files == []
    requires |r.mountPath| <= 100 && |r.fileName| <= 100
    ensures Modest(r)
  {
  }

  /** A dotted shim name is a legal object name; the names derived from it are no labels. */
  lemma DottedNameRefused()
    ensures var shim := ShimOf(Basic("v", "/t", []).(name := "a.b"));
            var h := Handle(WitnessWorld([shim]), CREATE, BarePod("app"));
            && Subdomain("a.b") && ValidShim(shim.spec, "a.b") && h.response.Patched?
            && !Admissible(h.pod)
  {
    hide Modest, Handle, Apply, Admissible, ValidShim, WitnessWorld, RenderedBytes, BarePod, ShimOf,
         WithinObjectLimit, DnsLabel, AllTokenNamesApart, AllTargetsDistinct, AllHelperPathsApart, HelperNamesFree;
    var r := Basic("v", "/t", []).(name := "a.b");
    NoFileFor(r);
    AppIsLabel();
    var plan := SingleWitness("app", r);
    assert Subdomain("a.b") && "a.b"[1] == '.';
    ObjectNameFits("a.b");
    assert !Fitting([plan][0]);
  }

  /** A token volume name is passed on as it is, label or not. */
  lemma TokenVolumeMayBeNoLabel()
    ensures var shim := ShimOf(Basic("Token Volume", "/t", []));
            var h := Handle(WitnessWorld([shim]), CREATE, BarePod("app"));
            ValidShim(shim.spec, "x") && h.response.Patched? && !Admissible(h.pod)
  {
    hide Modest, Handle, Apply, Admissible, ValidShim, WitnessWorld, RenderedBytes, BarePod, ShimOf,
         WithinObjectLimit, AllTokenNamesApart, AllTargetsDistinct, AllHelperPathsApart, HelperNamesFree;
    NoFile("Token Volume", "/t");
    AppIsLabel();
    var plan := SingleWitness("app", Basic("Token Volume", "/t", []));
    assert !DnsLabel("Token Volume") by { assert "Token Volume"[0] == 'T'; }
    assert !Fitting([plan][0]);
  }

  lemma Nested(dir: string, name: string)
    requires ProperSegment(dir) && ProperSegment(name)
    ensures Location("/" + dir) == [dir] && Location("/" + dir + "/" + name) == [dir, name]
  {
    LocationOfAbsPath([dir]);
    LocationOfAbsPath([dir, name]);
    hide Location;
    assert Join([dir], "/") == dir;
    assert [dir, name][1..] == [name] && Join([name], "/") == name;
    assert AbsPath([dir, name]) == "/" + dir + "/" + name;
  }

  lemma EscapedLocation()
    ensures Location("/t") == ["t"] && Location(JoinPath("/t", "../token")) == ["token"]
  {
    assert ProperSegment("t") && ProperSegment("token");
    hide Location, JoinPath;
    Nested("t", "token");
    assert "/" + "t" == "/t" && "../" + "token" == "../token";
    JoinedOutside("/t", "token");
    assert ["t"][..0] + ["token"] == ["token"];
  }

  /** A token file name may lead out of the shared volume: what the helper writes, the app never sees. */
  lemma TokenFileMayEscape()
    ensures var shim := ShimOf(Basic("v", "/t", []).(fileName := "../token"));
            var h := Handle(WitnessWorld([shim]), CREATE, BarePod("app"));
            && ValidShim(shim.spec, "x") && h.response.Patched? && |h.response.applied| == 1
            && |h.pod.containers| == 1 && |h.pod.initContainers| == 2
            && !TokenReaches(h.pod, h.pod.containers[0], h.pod.initContainers[0], h.response.applied[0])
  {
    hide Modest, Handle, Apply, Admissible, TokenReaches, ValidShim, BarePod, WitnessWorld, ShimOf, RenderedBytes,
         InTheWay, PlanObstructs, Location, JoinPath, DnsLabel, Considerate;
    var r := Basic("v", "/t", []).(fileName := "../token");
    NoFileFor(r);
    AppIsLabel();
    var plan := SingleWitness("app", r);
    EscapedLocation();
    TokenLost(plan);
  }

  /** A token path with a trailing slash slips past the path checks and blocks the shim's own file. */
  lemma UncleanTokenBlocksOwnFile()
    ensures var shim := ShimOf(Basic("v", "/a/", [TextFile("/a/x", "text")]));
            var h := Handle(WitnessWorld([shim]), CREATE, BarePod("app"));
            && ValidShim(shim.spec, "x") && h.response.Patched? && |h.pod.containers| == 1
            && ReadMounted(h.pod, h.pod.containers[0], "/a/x", "") == None
  {
    hide Modest, Handle, Apply, Admissible, ReadMounted, ValidShim, BarePod, WitnessWorld, ShimOf, RenderedBytes,
         Location, Considerate, AtOrUnder, DnsLabel, PlanObstructs, PathsDistinct, ShadowsConfig, FileMount;
    UncleanMountMissesFiles();
    OneFile("v", "/a/", "/a/x");
    AppIsLabel();
    var plan := SingleWitness("app", Basic("v", "/a/", [TextFile("/a/x", "text")]));
    UncleanAboveFile(plan);
    ReadsNothing(plan, "/a/x");
  }

  lemma UncleanAboveFile(plan: Plan)
    requires plan.token.mountPath == "/a/" && |plan.files| == 1 && plan.files[0].path == "/a/x"
    ensures PlanObstructs(plan, FileMount(plan, 0), "") && PathsDistinct(plan)
  {
    hide Location, ConfigVolumeName;
    TrailingSlash();
    Nested("a", "x");
    assert "/" + "a" + "/" + "x" == "/a/x";
    var ms := PlanMounts(plan, |plan.files|);
    assert ms[0].mountPath == "/a/" && FileMount(plan, 0).mountPath == "/a/x" && |"/a/"| != |"/a/x"|;
    assert ms[0] in ms && Obstructs(ms[0], FileMount(plan, 0), "");
  }

  /** A file mounted above the token directory is in the way of the token. */
  lemma FileMayBlockToken()
    ensures var shim := ShimOf(Basic("v", "/t/d", [TextFile("/t", "text")]));
            var h := Handle(WitnessWorld([shim]), CREATE, BarePod("app"));
            && ValidShim(shim.spec, "x") && h.response.Patched? && |h.response.applied| == 1
            && |h.pod.containers| == 1 && |h.pod.initContainers| == 2
            && !TokenReaches(h.pod, h.pod.containers[0], h.pod.initContainers[0], h.response.applied[0])
  {
    hide Modest, Handle, Apply, Admissible, TokenReaches, ValidShim, BarePod, WitnessWorld, ShimOf, RenderedBytes,
         Location, Considerate, TokenUnobstructed, DnsLabel;
    assert !AtOrUnder("/t/d", "/t") by { assert |"/t/d" + "/"| == 5; }
    OneFile("v", "/t/d", "/t");
    AppIsLabel();
    var plan := SingleWitness("app", Basic("v", "/t/d", [TextFile("/t", "text")]));
    Nested("t", "d");
    assert "/" + "t" + "/" + "d" == "/t/d" && "/" + "t" == "/t";
    var ms := PlanMounts(plan, |plan.files|);
    assert ms[1] == FileMount(plan, 0) && ms[1] in ms && Obstructs(ms[1], TokenMount(plan), "token");
    TokenLost(plan);
  }

  /* ---------- one shim the controller rejects ---------- */

  /** A parameter with the name of a builtin. */
  const RESERVED := Parameter(KEY_TOKEN_PATH, Source(Some("/elsewhere"), "", "", None, Empty), None, false)

  const TOKEN_FILE := EnvSpec("TOKEN_FILE", Parsed(Action(Field(KEY_TOKEN_PATH, []))))

  function Reserved(): Recipe { Basic("v", "/t", []).(parameters := [RESERVED], env := [TOKEN_FILE]) }

  lemma ReservedRejected()
    ensures !ValidShim(ShimOf(Reserved()).spec, "x")
  {
    hide SelectorsValid, FileModes.MatchesModePattern, Plans.ResolveToken, AllReferOnlyTo, Plans.PathsFine,
         ModesMatch, RefersOnlyTo, NamesOf;
    assert KEY_TOKEN_PATH == BUILTIN_KEYS[4];
    assert !ValidAt([RESERVED], 0);
  }

  lemma ReservedResolves() returns (v: Values)
    ensures Resolve(InputOf(Reserved())) == Ok(v) && KEY_TOKEN_PATH in v && v[KEY_TOKEN_PATH] == "/elsewhere"
  {
    var inp := InputOf(Reserved());
    v := BuiltinValues(inp.builtins)[KEY_TOKEN_PATH := "/elsewhere"];
    hide BuiltinValues, Plans.BuiltinsFor, FirstPresent, RenderTemplate;
    assert ParameterValue(inp, RESERVED, BuiltinValues(inp.builtins)) == Ok("/elsewhere");
    hide ParameterValue;
    assert [RESERVED][1..] == [];
  }

  lemma ReservedRenders(v: Values)
    requires KEY_TOKEN_PATH in v
    ensures Plans.AllRender(Plans.EnvTemplates([TOKEN_FILE]), v)
    ensures RenderTemplate(TOKEN_FILE.value, v) == Some(v[KEY_TOKEN_PATH])
  {
  }

  lemma ReservedVariable(v: Values, plan: Plan)
    requires KEY_TOKEN_PATH in v
    requires Plans.Build(ShimOf(Reserved()), v, TokenOf(Reserved()), SETTINGS) == Plans.Good(plan)
    ensures plan.env == [EnvVar("TOKEN_FILE", v[KEY_TOKEN_PATH])]
  {
    ReservedRenders(v);
    Plans.BuiltPlanMeaning(ShimOf(Reserved()), v, TokenOf(Reserved()), SETTINGS);
    hide Plans.Build, HelperConf.ParseConf, RenderTemplate, JoinPath, HelperConf.NormalMode;
    assert |plan.env| == 1 && plan.env[0] == EnvVar("TOKEN_FILE", v[KEY_TOKEN_PATH]);
  }

  lemma OfferedVariable(plan: Plan, value: string)
    requires Apply(BarePod("app"), [plan]).applied == [plan] && plan.containers == []
    requires plan.env == [EnvVar("TOKEN_FILE", value)]
    ensures var out := Apply(BarePod("app"), [plan]).pod;
            |out.containers| == 1 && FindEnv(out.containers[0].env, "TOKEN_FILE") == Some(value)
  {
    hide Apply, VolumesAdded, MountsAdded, ResolveTargets, Hits;
    var pod := BarePod("app");
    BareShape("app", plan);
    ApplyExact(pod, [plan], 0, "TOKEN_FILE");
    assert [plan][..0] == [];
    assert EnvOffered(pod, [plan], 0) == EnvOffered(pod, [], 0) + plan.env;
    assert pod.containers[0].env + EnvOffered(pod, [plan], 0) == plan.env;
  }

  /**
    A shim the controller reports as invalid, for a parameter named like a builtin, is injected
    all the same; its parameter overwrites the builtin, and the app is pointed at a path where
    there is no token.
   */
  lemma RejectedShimStillInjected()
    ensures var shim := ShimOf(Reserved());
            var h := Handle(WitnessWorld([shim]), CREATE, BarePod("app"));
            && !ValidShim(shim.spec, "x") && h.response.Patched? && |h.response.applied| == 1
            && |h.pod.containers| == 1
            && FindEnv(h.pod.containers[0].env, "TOKEN_FILE") == Some("/elsewhere")
            && TokenPath(h.response.applied[0].token) == "/t/token"
  {
    hide Modest, Handle, Apply, ValidShim, BarePod, WitnessWorld, ShimOf, RenderedBytes, PlannedAs, Plans.Build,
         Plans.SizeOf, Plans.AllRender, InputOf, Resolve, JoinPath, FindEnv;
    ReservedRejected();
    NoFileFor(Reserved());
    var v := ReservedResolves();
    ReservedRenders(v);
    var plan := WitnessPlanned(Reserved(), v);
    ReservedVariable(v, plan);
    OneApplied("app", Reserved(), plan);
    OfferedVariable(plan, "/elsewhere");
    BuiltinTokenPath();
  }

  lemma BuiltinTokenPath()
    ensures JoinPath("/t", "token") == "/t/token"
  {
    assert ProperSegment("t") && ProperSegment("token");
    JoinSegment(["t"], "token");
    hide JoinPath;
    assert ["t", "token"][1..] == ["token"];
    assert AbsPath(["t"]) == "/t" && ["t"] + ["token"] == ["t", "token"];
    assert AbsPath(["t", "token"]) == "/t/token";
  }
}
