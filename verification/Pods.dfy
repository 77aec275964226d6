/**
  The part of a Kubernetes pod that injection reads or writes.  `PodState` is the value of a
  pod; `Pod` is the object that admission decodes once and then updates in place.
 */
module Pods {
  import opened Text

  datatype DownwardItem = DownwardItem(path: string, fieldPath: string, mode: Option<int>)

  datatype VolumeSource =
    | EmptyDir(medium: string)
    | Csi(driver: string, readOnly: bool)
    | DownwardApi(items: seq<DownwardItem>)
    | OtherSource(kind: string)

  datatype Volume = Volume(name: string, source: VolumeSource)

  datatype VolumeMount = VolumeMount(name: string, mountPath: string, subPath: string, readOnly: bool)

  datatype EnvVar = EnvVar(name: string, value: string)

  datatype Container = Container(
    name: string,
    image: string,
    args: seq<string>,
    restartPolicy: Option<string>,
    mounts: seq<VolumeMount>,
    env: seq<EnvVar>)

  datatype PodState = PodState(
    namespace: string,
    serviceAccountName: string,
    volumes: seq<Volume>,
    initContainers: seq<Container>,
    containers: seq<Container>,
    annotations: map<string, string>,
    labels: map<string, string>)

  class Pod {
    const namespace: string
    const serviceAccountName: string
    var volumes: seq<Volume>
    var initContainers: seq<Container>
    var containers: seq<Container>
    var annotations: map<string, string>
    var labels: map<string, string>

    constructor (p: PodState)
      ensures View() == p
    {
      namespace, serviceAccountName := p.namespace, p.serviceAccountName;
      volumes, initContainers, containers := p.volumes, p.initContainers, p.containers;
      annotations, labels := p.annotations, p.labels;
    }

    function View(): PodState
      reads this
    {
      PodState(namespace, serviceAccountName, volumes, initContainers, containers, annotations, labels)
    }
  }

  /* ---------- first-match lookups ---------- */

  function FindVolume(vs: seq<Volume>, name: string): (r: Option<VolumeSource>)
    ensures r.None? <==> forall i :: 0 <= i < |vs| ==> vs[i].name != name
  {
    if vs == [] then None
    else if vs[0].name == name then Some(vs[0].source)
    else FindVolume(vs[1..], name)
  }

  function FindContainer(cs: seq<Container>, name: string): (r: Option<nat>)
    ensures r.None? <==> forall i :: 0 <= i < |cs| ==> cs[i].name != name
    ensures r.Some? ==> r.value < |cs| && cs[r.value].name == name
                        && forall i :: 0 <= i < r.value ==> cs[i].name != name
  {
    if cs == [] then None
    else if cs[0].name == name then Some(0)
    else
      match FindContainer(cs[1..], name)
      case None => None
      case Some(i) => Some(i + 1)
  }

  function FindMount(ms: seq<VolumeMount>, mountPath: string): (r: Option<VolumeMount>)
    ensures r.None? <==> forall i :: 0 <= i < |ms| ==> ms[i].mountPath != mountPath
  {
    if ms == [] then None
    else if ms[0].mountPath == mountPath then Some(ms[0])
    else FindMount(ms[1..], mountPath)
  }

  function FindItem(items: seq<DownwardItem>, path: string): (r: Option<DownwardItem>)
    ensures r.None? <==> forall i :: 0 <= i < |items| ==> items[i].path != path
  {
    if items == [] then None
    else if items[0].path == path then Some(items[0])
    else FindItem(items[1..], path)
  }

  function HasEnv(env: seq<EnvVar>, name: string): (r: bool)
    ensures r <==> exists i :: 0 <= i < |env| && env[i].name == name
  {
    env != [] && (env[0].name == name || HasEnv(env[1..], name))
  }

  /** The value a variable has: its first definition. */
  function FindEnv(env: seq<EnvVar>, name: string): (r: Option<string>)
    ensures r.None? <==> !HasEnv(env, name)
  {
    if env == [] then None
    else if env[0].name == name then Some(env[0].value)
    else FindEnv(env[1..], name)
  }

  lemma {:induction false} FindEnvAppend(a: seq<EnvVar>, b: seq<EnvVar>, name: string)
    ensures FindEnv(a + b, name) == if FindEnv(a, name).Some? then FindEnv(a, name) else FindEnv(b, name)
  {
    if a == [] {
      assert a + b == b;
    } else {
      FindEnvAppend(a[1..], b, name);
      assert (a + b)[1..] == a[1..] + b;
    }
  }

  lemma {:induction false} FindVolumeAppend(a: seq<Volume>, b: seq<Volume>, name: string)
    ensures FindVolume(a + b, name)
            == if FindVolume(a, name).Some? then FindVolume(a, name) else FindVolume(b, name)
  {
    if a == [] {
      assert a + b == b;
    } else {
      FindVolumeAppend(a[1..], b, name);
      assert (a + b)[1..] == a[1..] + b;
    }
  }

  lemma {:induction false} FindMountAppend(a: seq<VolumeMount>, b: seq<VolumeMount>, path: string)
    ensures FindMount(a + b, path)
            == if FindMount(a, path).Some? then FindMount(a, path) else FindMount(b, path)
  {
    if a == [] {
      assert a + b == b;
    } else {
      FindMountAppend(a[1..], b, path);
      assert (a + b)[1..] == a[1..] + b;
    }
  }

  /** When the key occurs once, the first match is that occurrence. */
  lemma {:induction false} FindMountAt(ms: seq<VolumeMount>, i: nat)
    requires i < |ms|
    requires forall j :: 0 <= j < i ==> ms[j].mountPath != ms[i].mountPath
    ensures FindMount(ms, ms[i].mountPath) == Some(ms[i])
  {
    if i > 0 {
      assert ms[1..][i - 1] == ms[i];
      forall j | 0 <= j < i - 1 ensures ms[1..][j].mountPath != ms[i].mountPath {
        assert ms[1..][j] == ms[j + 1];
      }
      FindMountAt(ms[1..], i - 1);
    }
  }

  lemma {:induction false} FindItemAt(items: seq<DownwardItem>, i: nat)
    requires i < |items|
    requires forall j :: 0 <= j < i ==> items[j].path != items[i].path
    ensures FindItem(items, items[i].path) == Some(items[i])
  {
    if i > 0 {
      assert items[1..][i - 1] == items[i];
      forall j | 0 <= j < i - 1 ensures items[1..][j].path != items[i].path {
        assert items[1..][j] == items[j + 1];
      }
      FindItemAt(items[1..], i - 1);
    }
  }

  function ContainerNames(cs: seq<Container>): (r: seq<string>)
    ensures |r| == |cs| && forall i :: 0 <= i < |cs| ==> r[i] == cs[i].name
  {
    seq(|cs|, i requires 0 <= i < |cs| => cs[i].name)
  }

  function VolumeNames(vs: seq<Volume>): (r: seq<string>)
    ensures |r| == |vs| && forall i :: 0 <= i < |vs| ==> r[i] == vs[i].name
  {
    seq(|vs|, i requires 0 <= i < |vs| => vs[i].name)
  }

  function MountTargets(ms: seq<VolumeMount>): (r: seq<string>)
    ensures |r| == |ms| && forall i :: 0 <= i < |ms| ==> r[i] == ms[i].mountPath
  {
    seq(|ms|, i requires 0 <= i < |ms| => ms[i].mountPath)
  }

  function EnvNames(env: seq<EnvVar>): (r: seq<string>)
    ensures |r| == |env| && forall i :: 0 <= i < |env| ==> r[i] == env[i].name
  {
    seq(|env|, i requires 0 <= i < |env| => env[i].name)
  }

  /** Lookups by name see nothing but the names. */
  lemma {:induction false} FindContainerByNames(cs: seq<Container>, ds: seq<Container>, name: string)
    requires ContainerNames(cs) == ContainerNames(ds)
    ensures FindContainer(cs, name) == FindContainer(ds, name)
  {
    if cs != [] {
      assert |ds| == |ContainerNames(ds)| == |cs|;
      assert cs[0].name == ContainerNames(cs)[0] == ds[0].name;
      assert ContainerNames(cs[1..]) == ContainerNames(cs)[1..];
      assert ContainerNames(ds[1..]) == ContainerNames(ds)[1..];
      FindContainerByNames(cs[1..], ds[1..], name);
    }
  }
}
