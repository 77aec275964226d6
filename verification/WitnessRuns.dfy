/**
  Failures that take several shims.  Plans that claim nothing of each other are all applied to a
  plain pod, which makes it easy to say what a crowd of shims does to it.
 */
module WitnessRuns {
  import opened Text
  import opened Keys
  import opened Bytes
  import opened Paths
  import opened Pods
  import opened Injection
  import opened Templates
  import opened Specs
  import Plans
  import opened Validation
  import opened Greedy
  import opened Mounts
  import opened Delivery
  import opened Payload
  import opened Frame
  import opened Uniqueness
  import opened Listing
  import opened Handler
  import opened Witnesses

  /* ---------- plans that keep out of each other's way ---------- */

  /** The second plan claims no name and no path of the first. */
  predicate Apart(p: Plan, q: Plan)
  {
    && p.shimName != q.shimName && p.csiDriver == q.csiDriver
    && q.token.volumeName !in {SOCKET_VOLUME_NAME, p.token.volumeName, ConfigVolumeName(p.shimName)}
    && ConfigVolumeName(q.shimName) != p.token.volumeName
    && PathsApart(p, q)
  }

  predicate PathsApart(p: Plan, q: Plan)
  {
    forall i, j :: 0 <= i < |MountPaths(p)| && 0 <= j < |MountPaths(q)| ==> MountPaths(p)[i] != MountPaths(q)[j]
  }

  predicate AllApart(plans: seq<Plan>)
  {
    && (forall k :: 0 <= k < |plans| ==> plans[k].containers == [])
    && (forall j, k :: 0 <= j < k < |plans| ==> Apart(plans[j], plans[k]))
  }

  lemma {:induction false} NotInPairs(plans: seq<Plan>, name: string)
    requires forall k :: 0 <= k < |plans| ==>
               name != plans[k].token.volumeName && name != ConfigVolumeName(plans[k].shimName)
    ensures FindVolume(PairsOf(plans), name).None?
  {
    hide ConfigVolumeName, ConfigItems;
    if plans != [] {
      var n := |plans| - 1;
      NotInPairs(plans[..n], name);
      var pair := [TokenVolume(plans[n]), ConfigVolume(plans[n])];
      FindVolumeAppend(PairsOf(plans[..n]), pair, name);
    }
  }

  lemma {:induction false} VolumeFree(plans: seq<Plan>, name: string)
    requires name != SOCKET_VOLUME_NAME
    requires forall k :: 0 <= k < |plans| ==>
               name != plans[k].token.volumeName && name != ConfigVolumeName(plans[k].shimName)
    ensures FindVolume([] + VolumesAdded([], plans), name).None?
  {
    NotInPairs(plans, name);
    hide PairsOf, ConfigVolumeName;
    assert [] + VolumesAdded([], plans) == VolumesAdded([], plans);
    if plans != [] {
      FindVolumeAppend([SocketVolume(plans[0])], PairsOf(plans), name);
    }
  }

  lemma SocketShared(plans: seq<Plan>, q: Plan, pod: PodState)
    requires pod.volumes == [] + VolumesAdded([], plans)
    requires forall k :: 0 <= k < |plans| ==> plans[k].csiDriver == q.csiDriver
    ensures SocketProblem(pod, q).None?
  {
    hide PairsOf;
    assert [] + VolumesAdded([], plans) == VolumesAdded([], plans);
    if plans != [] {
      assert VolumesAdded([], plans)[0] == SocketVolume(plans[0]);
    }
  }

  lemma {:induction false} HelperNamedElse(plans: seq<Plan>, q: Plan, i: nat)
    requires i < |Helpers(plans)| && plans[i / 2].shimName != q.shimName
    ensures Helpers(plans)[i].name !in {InitContainerName(q.shimName), RefreshContainerName(q.shimName)}
  {
    hide HelperContainer, InitContainerName, RefreshContainerName;
    var p := plans[i / 2];
    HelperNameAt(plans, i / 2);
    DerivedNamesApart(p.shimName, q.shimName);
    DerivedNamesApart(q.shimName, p.shimName);
    assert Helpers(plans)[i].name == ContainerNames(Helpers(plans))[i];
    if i % 2 == 0 {
      assert i == 2 * (i / 2);
    } else {
      assert i == 2 * (i / 2) + 1;
    }
  }

  lemma {:induction false} HelperFree(plans: seq<Plan>, q: Plan)
    requires forall k :: 0 <= k < |plans| ==> plans[k].shimName != q.shimName
    ensures FindContainer(Helpers(plans), InitContainerName(q.shimName)).None?
    ensures FindContainer(Helpers(plans), RefreshContainerName(q.shimName)).None?
  {
    hide HelperContainer, InitContainerName, RefreshContainerName;
    var cs := Helpers(plans);
    forall i | 0 <= i < |cs|
      ensures cs[i].name != InitContainerName(q.shimName) && cs[i].name != RefreshContainerName(q.shimName)
    {
      HelperNamedElse(plans, q, i);
    }
  }

  lemma {:induction false} PathFree(podName: string, plans: seq<Plan>, q: Plan, j: nat)
    requires forall k :: 0 <= k < |plans| ==> PathsApart(plans[k], q)
    requires Run(0, Start(BarePod(podName)), plans).applied == plans
    requires j < |MountPaths(q)|
    ensures var cs := Run(0, Start(BarePod(podName)), plans).pod.containers;
            |cs| == 1 && FindMount(cs[0].mounts, MountPaths(q)[j]).None?
  {
    hide Run, MountPaths, PlanMounts, Reaches;
    var pod := BarePod(podName);
    RunMountsExact(0, pod, plans, 0);
    var ms := Run(0, Start(pod), plans).pod.containers[0].mounts;
    forall m | m in ms ensures m.mountPath != MountPaths(q)[j] {
      MountMembers(0, pod, plans, 0, m);
      var l :| 0 <= l < |plans| && Reaches(pod, plans[l], 0) && m in PlanMounts(plans[l], |plans[l].files|);
      var once := PlanMounts(plans[l], |plans[l].files|);
      var i :| 0 <= i < |once| && once[i] == m;
      PlanMountTargets(plans[l]);
      assert MountTargets(once)[i] == MountPaths(plans[l])[i];
    }
  }

  lemma {:induction false} PathsFree(podName: string, plans: seq<Plan>, q: Plan, targets: seq<string>)
    requires forall k :: 0 <= k < |plans| ==> PathsApart(plans[k], q)
    requires Run(0, Start(BarePod(podName)), plans).applied == plans
    ensures MountProblem(Run(0, Start(BarePod(podName)), plans).pod.containers, targets, MountPaths(q)).None?
  {
    hide Run, MountPaths, PathsApart, FindMount;
    var cs := Run(0, Start(BarePod(podName)), plans).pod.containers;
    PathFree(podName, plans, q, 0) by { PathsNotEmpty(q); }
    forall j | 0 <= j < |MountPaths(q)| ensures FindMount(cs[0].mounts, MountPaths(q)[j]).None? {
      PathFree(podName, plans, q, j);
    }
    MountProblemIff(cs, targets, MountPaths(q));
    PathProblemIff(cs[0], MountPaths(q));
    hide MountProblem, PathProblem;
  }

  lemma PathsNotEmpty(q: Plan)
    ensures |MountPaths(q)| > 0
  {
  }

  /** The next plan finds nothing in its way. */
  lemma {:induction false} NextAccepted(podName: string, plans: seq<Plan>, q: Plan)
    requires Run(0, Start(BarePod(podName)), plans).applied == plans && q.token.volumeName != SOCKET_VOLUME_NAME
    requires AllApart(plans + [q]) && TotalRendered(plans) + RenderedBytes(q) <= MAX_POD_ANNOTATION_BYTES
    ensures Refusal(0, Run(0, Start(BarePod(podName)), plans), q).None?
  {
    hide Run, Apart, AllApart, PathsApart, RenderedBytes, TotalRendered, ConfigVolumeName, ResolveTargets,
         MountProblem, Helpers, InitContainerName, RefreshContainerName, FindVolume, MountPaths, VolumesAdded,
         SocketProblem, FindContainer, CheckCollisions;
    var pod, s := BarePod(podName), Start(BarePod(podName));
    NextApart(plans, q);
    NothingRendered();
    AddedBytesExact(0, s, plans);
    TargetsUnchanged(0, pod, plans, q);
    BareTargets(podName, q);
    NextCollisionFree(podName, plans, q, ResolveTargets(Run(0, s, plans).pod, q).targets);
  }

  lemma {:induction false} NextCollisionFree(podName: string, plans: seq<Plan>, q: Plan, targets: seq<string>)
    requires Run(0, Start(BarePod(podName)), plans).applied == plans && q.token.volumeName != SOCKET_VOLUME_NAME
    requires AllApart(plans + [q])
    ensures var here := Run(0, Start(BarePod(podName)), plans);
            CheckCollisions(here.pod, q, here.newInits, targets).None?
  {
    hide Run, AllApart, PathsApart, ConfigVolumeName, MountProblem, Helpers, InitContainerName, RefreshContainerName,
         FindVolume, MountPaths, VolumesAdded, SocketProblem, FindContainer;
    var s := Start(BarePod(podName));
    var here := Run(0, s, plans);
    NextApart(plans, q);
    RunVolumesExact(0, s, plans);
    InitsUntouched(0, s, plans);
    NoHelpers();
    QueueIsHelpers(0, s, plans);
    VolumeFree(plans, q.token.volumeName);
    VolumeFree(plans, ConfigVolumeName(q.shimName));
    SocketShared(plans, q, here.pod);
    HelperFree(plans, q);
    PathsFree(podName, plans, q, targets);
    assert FindContainer([], InitContainerName(q.shimName)).None?;
    assert FindContainer([], RefreshContainerName(q.shimName)).None?;
  }

  lemma NextApart(plans: seq<Plan>, q: Plan)
    requires AllApart(plans + [q])
    ensures q.containers == [] && ConfigVolumeName(q.shimName) != SOCKET_VOLUME_NAME
    ensures forall k :: 0 <= k < |plans| ==>
              && plans[k].shimName != q.shimName && plans[k].csiDriver == q.csiDriver && PathsApart(plans[k], q)
              && q.token.volumeName != plans[k].token.volumeName
              && q.token.volumeName != ConfigVolumeName(plans[k].shimName)
              && ConfigVolumeName(q.shimName) != plans[k].token.volumeName
              && ConfigVolumeName(q.shimName) != ConfigVolumeName(plans[k].shimName)
  {
    hide PathsApart, ConfigVolumeName;
    var all, n := plans + [q], |plans|;
    assert all[n] == q;
    DerivedNamesApart(q.shimName, q.shimName);
    forall k | 0 <= k < n
      ensures Apart(plans[k], q) && ConfigVolumeName(q.shimName) != ConfigVolumeName(plans[k].shimName)
    {
      assert all[k] == plans[k] && Apart(all[k], all[n]);
      DerivedNamesApart(q.shimName, plans[k].shimName);
    }
    assert q.containers == all[n].containers;
  }

  lemma {:induction false} RenderedGrows(plans: seq<Plan>, n: nat)
    requires n <= |plans|
    ensures TotalRendered(plans[..n]) <= TotalRendered(plans)
    decreases |plans|
  {
    hide RenderedBytes;
    if n < |plans| {
      RenderedGrows(plans[..|plans| - 1], n);
      assert plans[..|plans| - 1][..n] == plans[..n];
    } else {
      assert plans[..n] == plans;
    }
  }

  lemma ApartFront(plans: seq<Plan>)
    requires plans != [] && AllApart(plans)
    ensures AllApart(plans[..|plans| - 1])
  {
    hide Apart;
  }

  /** Plans that claim nothing of each other, within the budget, are all applied to a plain pod. */
  lemma {:induction false} AllApplied(podName: string, plans: seq<Plan>)
    requires AllApart(plans) && TotalRendered(plans) <= MAX_POD_ANNOTATION_BYTES
    requires forall k :: 0 <= k < |plans| ==> plans[k].token.volumeName != SOCKET_VOLUME_NAME
    ensures Run(0, Start(BarePod(podName)), plans).applied == plans
  {
    hide Step, Refusal, AllApart, RenderedBytes;
    if plans != [] {
      var n := |plans| - 1;
      ApartFront(plans);
      RenderedGrows(plans, n);
      AllApplied(podName, plans[..n]);
      assert plans == plans[..n] + [plans[n]];
      NextAccepted(podName, plans[..n], plans[n]);
      StepApplied(0, Run(0, Start(BarePod(podName)), plans[..n]), plans[n]);
    }
  }

  lemma {:induction false} AllAppliedTo(podName: string, plans: seq<Plan>)
    requires AllApart(plans) && TotalRendered(plans) <= MAX_POD_ANNOTATION_BYTES
    requires forall k :: 0 <= k < |plans| ==> plans[k].token.volumeName != SOCKET_VOLUME_NAME
    ensures Apply(BarePod(podName), plans).applied == plans
  {
    hide Run, AllApart, TotalRendered, MapBytes;
    AllApplied(podName, plans);
    MapBytesEmpty();
  }

  /* ---------- two shims ---------- */

  const ABOVE := Basic("v", "/t", [])
  const BELOW := Recipe("y", "w", "/u", "token", [], [], [TextFile("/t/f", "text")], [])

  lemma AllPlannedTwo(a: Shim, b: Shim, p: Plan, q: Plan)
    requires a.spec.selection == EVERY_POD && b.spec.selection == EVERY_POD
    requires PlannedAs(a, p) && PlannedAs(b, q) && a.id.name == "x" && b.id.name == "y"
    ensures AllPlanned(SortByName([a, b]), [p, q])
  {
    hide PlannedAs;
    assert !Less("y", "x");
    hide Less;
    assert [a, b][1..] == [b] && [b][1..] == [] && SortByName([]) == [];
    assert SortByName([b]) == [b];
    assert SortByName([a, b]) == [a, b];
  }

  lemma PairApart(p: Plan, q: Plan)
    requires Reflects(p, ABOVE) && Reflects(q, BELOW)
    ensures AllApart([p, q]) && PathsDistinct(q)
  {
    hide RenderedBytes;
    assert ConfigVolumeName("x")[0] == 'o' && ConfigVolumeName("y")[0] == 'o';
    assert MountPaths(p) == ["/t"] && MountPaths(q) == ["/u", "/t/f"];
    assert "/t"[1] != "/u"[1] && |"/t/f"| == 4;
    assert Apart(p, q);
    hide Apart;
  }

  lemma PairSmall(p: Plan, q: Plan)
    requires Reflects(p, ABOVE) && Reflects(q, BELOW)
    ensures TotalRendered([p, q]) <= MAX_POD_ANNOTATION_BYTES
  {
    hide RenderedBytes;
    assert TextBytes([]) == 0;
    assert BELOW.files[..0] == [] && TextBytes(BELOW.files) == 4;
    assert [p, q][..1] == [p] && [p][..0] == [];
    assert TotalRendered([p]) == RenderedBytes(p);
  }

  lemma TokenAboveFile(p: Plan, q: Plan)
    requires Reflects(p, ABOVE) && Reflects(q, BELOW)
    ensures PlanObstructs(p, FileMount(q, 0), "")
  {
    hide RenderedBytes, Location, ConfigVolumeName, TextBytes;
    Nested("t", "f");
    assert "/" + "t" + "/" + "f" == "/t/f" && "/" + "t" == "/t";
    var ms := PlanMounts(p, |p.files|);
    assert ms[0] in ms && ms[0].mountPath != FileMount(q, 0).mountPath;
    assert Obstructs(ms[0], FileMount(q, 0), "");
  }

  lemma OtherFileBlocked(p: Plan, q: Plan)
    requires Reflects(p, ABOVE) && Reflects(q, BELOW)
    requires Apply(BarePod("app"), [p, q]).applied == [p, q] && PathsDistinct(q)
    ensures var out := Apply(BarePod("app"), [p, q]).pod;
            |out.containers| == 1 && ReadMounted(out, out.containers[0], "/t/f", "") == None
  {
    TokenAboveFile(p, q);
    hide Apply, ReadMounted, ResolveTargets, BarePod, ShadowsConfig, PlanObstructs, FileMount, PathsDistinct,
         Obstructed, Reaches, RenderedBytes, TextBytes;
    var pod := BarePod("app");
    BareShape("app", p);
    BareShape("app", q);
    FilesDelivered(pod, [p, q], 1, 0, 0);
    assert Reaches(pod, [p, q][0], 0);
  }

  lemma PairModest()
    ensures Modest(ABOVE) && Modest(BELOW)
  {
    NoFile("v", "/t");
    assert !AtOrUnder("/u", "/t/f") by { assert "/u" + "/" == "/u/" && "/u/"[1] != "/t/f"[1]; }
    assert BELOW.files[..0] == [] && TextBytes(BELOW.files) == 4;
  }

  lemma PairPlanned() returns (p: Plan, q: Plan)
    ensures Reflects(p, ABOVE) && Reflects(q, BELOW) && AllPlanned(SortByName([ShimOf(ABOVE), ShimOf(BELOW)]), [p, q])
  {
    PairModest();
    hide Modest, Reflects, AllPlanned, SortByName, PlannedAs;
    p := PlainPlanned(ABOVE);
    q := PlainPlanned(BELOW);
    AllPlannedTwo(ShimOf(ABOVE), ShimOf(BELOW), p, q);
  }

  /**
    Paths of different shims are compared for equality only, so the read-only token directory of
    one valid shim can lie above a file of another: both are applied, and the file is not there.
   */
  lemma TokenMayBlockOtherFile()
    ensures var a, b := ShimOf(ABOVE), ShimOf(BELOW);
            var h := Handle(WitnessWorld([a, b]), CREATE, BarePod("app"));
            && ValidShim(a.spec, "x") && ValidShim(b.spec, "y") && h.response.Patched? && |h.response.applied| == 2
            && |h.pod.containers| == 1 && ReadMounted(h.pod, h.pod.containers[0], "/t/f", "") == None
  {
    hide Modest, Handle, Apply, ReadMounted, ValidShim, BarePod, WitnessWorld, ShimOf, AllApart, AllPlanned, SortByName,
         TotalRendered, PathsDistinct, RenderedBytes, TextBytes;
    PairModest();
    WitnessValid(ABOVE);
    WitnessValid(BELOW);
    var p, q := PairPlanned();
    PairApart(p, q);
    PairSmall(p, q);
    AllAppliedTo("app", [p, q]);
    WitnessHandled([ShimOf(ABOVE), ShimOf(BELOW)], [p, q], "app");
    OtherFileBlocked(p, q);
  }

  /* ---------- a crowd of shims ---------- */

  const CROWD := 400

  function EmptyFiles(k: nat): (fs: seq<FileSpec>)
    ensures |fs| == 32 && forall i :: 0 <= i < 32 ==> fs[i] == TextFile("/f" + Itoa(k) + "-" + Itoa(i), "")
  {
    seq(32, i requires 0 <= i < 32 => TextFile("/f" + Itoa(k) + "-" + Itoa(i), ""))
  }

  /** A shim with as many files as the schema allows, all of them empty. */
  function Member(k: nat): Recipe
  {
    Recipe("s" + Itoa(k), "v" + Itoa(k), "/t" + Itoa(k), "token", [], [], EmptyFiles(k), [])
  }

  lemma {:induction false} ItoaShort(k: nat)
    requires k < 1000
    ensures 1 <= |Itoa(k)| <= 3
  {
    if k >= 10 {
      if k >= 100 {
        assert k / 10 / 10 < 10;
        assert |Itoa(k / 10 / 10)| == 1;
      }
      assert |Itoa(k / 10)| <= 2;
    }
  }

  lemma {:induction false} ItoaInjective(a: nat, b: nat)
    ensures Itoa(a) == Itoa(b) <==> a == b
  {
    AtoiItoa(a);
    AtoiItoa(b);
  }

  lemma {:induction false} FilePathsDiffer(k: nat, i: nat, l: nat, j: nat)
    ensures "/f" + Itoa(k) + "-" + Itoa(i) == "/f" + Itoa(l) + "-" + Itoa(j) <==> k == l && i == j
  {
    ItoaInjective(k, l);
    DashNumeralInjective(Itoa(k), i, Itoa(l), j);
    hide Itoa;
    PrefixedDashes("/f", Itoa(k), Itoa(i), Itoa(l), Itoa(j));
  }

  lemma PrefixedDashes(p: string, a: string, b: string, c: string, d: string)
    ensures p + a + "-" + b == p + c + "-" + d <==> a + "-" + b == c + "-" + d
  {
    PrefixCancel(p, a + "-" + b, c + "-" + d);
    assert p + a + "-" + b == p + (a + "-" + b) && p + c + "-" + d == p + (c + "-" + d);
  }

  lemma {:induction false} EmptyTexts(fs: seq<FileSpec>)
    requires forall i :: 0 <= i < |fs| ==> fs[i].content == Parsed(Plain(""))
    ensures TextBytes(fs) == 0
  {
    if fs != [] {
      EmptyTexts(fs[..|fs| - 1]);
    }
  }

  lemma {:induction false} MemberPathsFine(k: nat)
    ensures Plans.PathsFine(EmptyFiles(k), "/t" + Itoa(k))
  {
    hide Itoa;
    var fs, mountPath := EmptyFiles(k), "/t" + Itoa(k);
    hide EmptyFiles;
    forall i, j | 0 <= i < j < 32 ensures fs[i].path != fs[j].path {
      FilePathsDiffer(k, i, k, j);
    }
    forall i | 0 <= i < 32 ensures !AtOrUnder(mountPath, fs[i].path) {
      assert fs[i].path[1] == 'f' && mountPath[1] == 't' && (mountPath + "/")[1] == 't';
    }
  }

  lemma MemberModest(k: nat)
    requires k < 1000
    ensures Modest(Member(k)) && |Member(k).name| <= 4 && TextBytes(Member(k).files) == 0
  {
    hide Itoa, TextBytes, Plans.PathsFine;
    ItoaShort(k);
    EmptyTexts(EmptyFiles(k));
    MemberPathsFine(k);
  }

  /** The plan of a member of the crowd. */
  ghost predicate PlanOfMember(shim: Shim, plan: Plan, k: nat)
  {
    k < CROWD && shim == ShimOf(Member(k)) && PlannedAs(shim, plan) && Reflects(plan, Member(k))
  }

  lemma MemberPaths(plan: Plan, k: nat, i: nat)
    requires Reflects(plan, Member(k)) && i < |MountPaths(plan)|
    ensures MountPaths(plan)[i] == if i == 0 then "/t" + Itoa(k) else "/f" + Itoa(k) + "-" + Itoa(i - 1)
  {
    hide Itoa, RenderedBytes, TextBytes;
    if i > 0 {
      assert MountPaths(plan)[i] == plan.files[i - 1].path == Member(k).files[i - 1].path;
    }
  }

  lemma MembersApart(p: Plan, k: nat, q: Plan, l: nat)
    requires Reflects(p, Member(k)) && Reflects(q, Member(l)) && k != l
    ensures Apart(p, q)
  {
    ItoaInjective(k, l);
    PrefixCancel("s", Itoa(k), Itoa(l));
    PrefixCancel("v", Itoa(k), Itoa(l));
    PrefixCancel("/t", Itoa(k), Itoa(l));
    hide Itoa, RenderedBytes, TextBytes;
    assert q.token.volumeName[0] == 'v' && p.token.volumeName[0] == 'v';
    assert ConfigVolumeName(p.shimName)[0] == 'o' && ConfigVolumeName(q.shimName)[0] == 'o';
    assert SOCKET_VOLUME_NAME[0] == 's';
    forall i, j | 0 <= i < |MountPaths(p)| && 0 <= j < |MountPaths(q)|
      ensures MountPaths(p)[i] != MountPaths(q)[j]
    {
      hide MountPaths, Reflects;
      MemberPaths(p, k, i);
      MemberPaths(q, l, j);
      if i > 0 && j > 0 {
        FilePathsDiffer(k, i - 1, l, j - 1);
      } else if i > 0 || j > 0 {
        assert ("/t" + Itoa(k))[1] == 't' && ("/t" + Itoa(l))[1] == 't';
      }
    }
  }

  function Crowd(): (shims: seq<Shim>)
    ensures |shims| == CROWD && forall k :: 0 <= k < CROWD ==> shims[k] == ShimOf(Member(k))
  {
    seq(CROWD, k requires 0 <= k < CROWD => ShimOf(Member(k)))
  }

  lemma CrowdNamesDistinct()
    ensures NamesDistinct(SortByName(Crowd()))
  {
    var shims := Crowd();
    hide Crowd, Itoa, EmptyFiles;
    forall i, j | 0 <= i < j < |shims| ensures shims[i].id.name != shims[j].id.name {
      ItoaInjective(i, j);
      PrefixCancel("s", Itoa(i), Itoa(j));
      assert shims[i].id.name == "s" + Itoa(i) && shims[j].id.name == "s" + Itoa(j);
    }
    hide Member, ShimOf;
    SortMultiset(shims);
    DistinctPermuted(shims, SortByName(shims));
  }

  lemma {:induction false} CrowdPlanned(shims: seq<Shim>) returns (plans: seq<Plan>, ks: seq<nat>)
    requires forall i :: 0 <= i < |shims| ==> shims[i] in Crowd()
    ensures |plans| == |ks| == |shims| && forall i :: 0 <= i < |shims| ==> PlanOfMember(shims[i], plans[i], ks[i])
  {
    hide Crowd, PlanOfMember;
    if shims == [] {
      plans, ks := [], [];
    } else {
      var n := |shims| - 1;
      plans, ks := CrowdPlanned(shims[..n]);
      var plan, k := ListedPlanned(shims[n]);
      plans, ks := plans + [plan], ks + [k];
    }
  }

  lemma MemberPlanned(k: nat) returns (plan: Plan)
    requires k < CROWD
    ensures PlanOfMember(ShimOf(Member(k)), plan, k)
  {
    MemberModest(k);
    hide Modest, Reflects, PlannedAs, Itoa, ShimOf;
    plan := PlainPlanned(Member(k));
  }

  lemma ListedPlanned(shim: Shim) returns (plan: Plan, k: nat)
    requires shim in Crowd()
    ensures PlanOfMember(shim, plan, k)
  {
    hide PlanOfMember, Member, ShimOf;
    k :| 0 <= k < CROWD && Crowd()[k] == shim;
    plan := MemberPlanned(k);
  }

  lemma CrowdApart(shims: seq<Shim>, plans: seq<Plan>, ks: seq<nat>)
    requires NamesDistinct(shims) && |plans| == |ks| == |shims|
    requires forall i :: 0 <= i < |shims| ==> PlanOfMember(shims[i], plans[i], ks[i])
    ensures AllApart(plans) && AllPlanned(shims, plans)
    ensures forall i :: 0 <= i < |plans| ==> plans[i].token.volumeName != SOCKET_VOLUME_NAME
  {
    hide PlannedAs, RenderedBytes, TextBytes, Itoa, EmptyFiles, Apart;
    forall i | 0 <= i < |plans|
      ensures plans[i].containers == [] && plans[i].token.volumeName != SOCKET_VOLUME_NAME
      ensures shims[i].spec.selection == EVERY_POD && PlannedAs(shims[i], plans[i])
    {
      assert PlanOfMember(shims[i], plans[i], ks[i]);
      assert plans[i].token.volumeName[0] == 'v' && SOCKET_VOLUME_NAME[0] == 's';
    }
    forall i, j | 0 <= i < j < |plans| ensures Apart(plans[i], plans[j]) {
      assert PlanOfMember(shims[i], plans[i], ks[i]) && PlanOfMember(shims[j], plans[j], ks[j]);
      assert ks[i] != ks[j];
      MembersApart(plans[i], ks[i], plans[j], ks[j]);
    }
  }

  lemma {:induction false} FileKeysAtLeast(plan: Plan, n: nat)
    requires n <= |plan.files| && |plan.shimName| >= 2
    ensures FileKeyBytes(plan, n) >= 27 * n
  {
    if n > 0 {
      FileKeysAtLeast(plan, n - 1);
      assert |FILE_ANNOTATION_PREFIX| == 23;
      assert |FileAnnotation(plan.shimName, n - 1)| >= 27;
    }
  }

  lemma MemberBytes(plan: Plan, k: nat)
    requires Reflects(plan, Member(k)) && k < CROWD
    ensures RenderedBytes(plan) <= 440 && KeyBytes(plan) >= 864
  {
    ItoaShort(k);
    MemberModest(k);
    hide Itoa, TextBytes, RenderedBytes, Modest, FileKeyBytes, HelperConfAnnotation;
    FileKeysAtLeast(plan, 32);
  }

  lemma {:induction false} CrowdBytes(shims: seq<Shim>, plans: seq<Plan>, ks: seq<nat>)
    requires |plans| == |ks| == |shims|
    requires forall i :: 0 <= i < |shims| ==> PlanOfMember(shims[i], plans[i], ks[i])
    ensures TotalRendered(plans) <= 440 * |plans| && TotalKeyBytes(plans) >= 864 * |plans|
  {
    hide PlannedAs, Reflects, RenderedBytes, KeyBytes, Member;
    if plans != [] {
      var n := |plans| - 1;
      assert PlanOfMember(shims[n], plans[n], ks[n]);
      MemberBytes(plans[n], ks[n]);
      hide PlanOfMember;
      CrowdBytes(shims[..n], plans[..n], ks[..n]);
    }
  }

  /** With no annotations before, nothing is overwritten and the keys alone decide. */
  lemma {:induction false} KeysExceedLimit(podName: string, plans: seq<Plan>)
    requires Apply(BarePod(podName), plans).applied == plans && plans != []
    requires TotalKeyBytes(plans) > MAX_OBJECT_ANNOTATION_BYTES
    ensures MapBytes(Apply(BarePod(podName), plans).pod.annotations) > MAX_OBJECT_ANNOTATION_BYTES
  {
    hide Apply, TotalKeyBytes, TotalRendered, Payloads, Bookkeeping, MapBytes;
    AnnotationLimitExact(BarePod(podName), plans);
    MapBytesEmpty();
    assert Overwritten(map[], Payloads(plans) + Bookkeeping(plans)) == map[];
  }

  lemma CrowdListed(i: nat)
    requires i < |SortByName(Crowd())|
    ensures SortByName(Crowd())[i] in Crowd() && |SortByName(Crowd())| == CROWD
  {
    hide Crowd, SortByName;
    SortMultiset(Crowd());
    MembersKept(SortByName(Crowd()), Crowd(), SortByName(Crowd())[i]);
    assert |SortByName(Crowd())| == |multiset(SortByName(Crowd()))| == |multiset(Crowd())| == |Crowd()|;
  }

  lemma CrowdSize()
    ensures |SortByName(Crowd())| == CROWD
  {
    hide Crowd, SortByName;
    SortMultiset(Crowd());
    assert |SortByName(Crowd())| == |multiset(SortByName(Crowd()))| == |multiset(Crowd())| == |Crowd()|;
  }

  lemma CrowdApplied() returns (plans: seq<Plan>)
    ensures |plans| == CROWD && AllPlanned(SortByName(Crowd()), plans)
    ensures Apply(BarePod("app"), plans).applied == plans && TotalKeyBytes(plans) > MAX_OBJECT_ANNOTATION_BYTES
  {
    hide Crowd, SortByName, NamesDistinct, AllApart, AllPlanned, PlanOfMember, TotalRendered, TotalKeyBytes, Apply,
         BarePod;
    var sorted := SortByName(Crowd());
    CrowdSize();
    forall i | 0 <= i < |sorted| ensures sorted[i] in Crowd() {
      CrowdListed(i);
    }
    var ks;
    plans, ks := CrowdPlanned(sorted);
    CrowdNamesDistinct();
    CrowdApart(sorted, plans, ks);
    CrowdBytes(sorted, plans, ks);
    AllAppliedTo("app", plans);
  }

  /**
    The budget counts contents and not keys: enough valid shims with enough empty files are all
    applied, within the budget, and the pod is larger than the API server admits.
   */
  lemma KeysMayExceedLimit()
    ensures var h := Handle(WitnessWorld(Crowd()), CREATE, BarePod("app"));
            && (forall k :: 0 <= k < CROWD ==> ValidShim(ShimOf(Member(k)).spec, Member(k).name))
            && h.response.Patched? && |h.response.applied| == CROWD
            && MapBytes(h.pod.annotations) > MAX_OBJECT_ANNOTATION_BYTES && !Admissible(h.pod)
  {
    hide Handle, Apply, ValidShim, BarePod, WitnessWorld, ShimOf, AllPlanned, SortByName, TotalKeyBytes, Crowd, Member,
         MapBytes, Modest, VolumesOk, NamesOk, MountsDistinct, Distinct;
    forall k | 0 <= k < CROWD ensures ValidShim(ShimOf(Member(k)).spec, Member(k).name) {
      MemberValid(k);
    }
    var plans := CrowdApplied();
    KeysExceedLimit("app", plans);
    WitnessHandled(Crowd(), plans, "app");
  }

  lemma MemberValid(k: nat)
    requires k < CROWD
    ensures ValidShim(ShimOf(Member(k)).spec, Member(k).name)
  {
    hide Modest, ValidShim, Itoa, ShimOf;
    MemberModest(k);
    WitnessValid(Member(k));
  }
}
