/**
  The annotation keys, label keys and object names the operator derives from a shim, and the
  facts about them that injection relies on: which of them can coincide, and which never do.
 */
module Keys {
  import opened Text

  const GROUP_PREFIX := "oidcshim.kemo.dev"

  const ENROLLMENT_KEY := GROUP_PREFIX + "/shim"
  const INJECT_ANNOTATION := GROUP_PREFIX + "/inject"
  const STATUS_ANNOTATION := GROUP_PREFIX + "/status"
  const SHIMS_ANNOTATION := GROUP_PREFIX + "/shims"
  const CONTAINERS_ANNOTATION := GROUP_PREFIX + "/containers"
  const HELPER_CONF_ANNOTATION_PREFIX := GROUP_PREFIX + "/helper-conf-"
  const FILE_ANNOTATION_PREFIX := GROUP_PREFIX + "/file-"
  const SHIM_LABEL_PREFIX := GROUP_PREFIX + "/shim-"

  const STATUS_INJECTED := "injected"
  const LABEL_NAMESPACED := "namespaced"
  const LABEL_CLUSTER := "cluster"

  const SOCKET_VOLUME_NAME := "spiffe-workload-api"
  const CONFIG_MOUNT_PATH := "/etc/oidcshim"
  const HELPER_CONF_FILE := "helper.conf"
  const HELPER_CONF_PATH := CONFIG_MOUNT_PATH + "/" + HELPER_CONF_FILE
  const FILES_SUB_PATH_DIR := "files"

  function ShimLabelKey(shim: string): string { SHIM_LABEL_PREFIX + shim }
  function HelperConfAnnotation(shim: string): string { HELPER_CONF_ANNOTATION_PREFIX + shim }
  function FileAnnotation(shim: string, i: nat): string { FILE_ANNOTATION_PREFIX + shim + "-" + Itoa(i) }
  function ConfigVolumeName(shim: string): string { "oidcshim-config-" + shim }
  function InitContainerName(shim: string): string { "oidcshim-init-" + shim }
  function RefreshContainerName(shim: string): string { "oidcshim-refresh-" + shim }
  function FilesSubPath(i: nat): string { FILES_SUB_PATH_DIR + "/" + Itoa(i) }

  const FIELD_REF_HEAD := "metadata.annotations['"
  const FIELD_REF_TAIL := "']"

  /** The downward-API field path that selects one annotation. */
  function AnnotationFieldRef(key: string): string { FIELD_REF_HEAD + key + FIELD_REF_TAIL }

  /** How a node reads such a field path back: the quoted subscript, if it has that shape. */
  function AnnotationSelected(fieldPath: string): Option<string>
  {
    if |fieldPath| >= |FIELD_REF_HEAD| + |FIELD_REF_TAIL|
       && fieldPath[..|FIELD_REF_HEAD|] == FIELD_REF_HEAD
       && fieldPath[|fieldPath| - |FIELD_REF_TAIL|..] == FIELD_REF_TAIL
    then Some(fieldPath[|FIELD_REF_HEAD|..|fieldPath| - |FIELD_REF_TAIL|])
    else None
  }

  /** The identity of a shim object as the `shims` annotation and the log name it. */
  datatype ShimId = Namespaced(namespace: string, name: string) | ClusterWide(name: string)

  function ShimKey(id: ShimId): string
  {
    match id
    case Namespaced(ns, name) => "OIDCShim/" + ns + "/" + name
    case ClusterWide(name) => "ClusterOIDCShim/" + name
  }

  /** The keys and names users see, written out as the documentation has them. */
  lemma DocumentedKeys(shim: string)
    ensures ENROLLMENT_KEY == "oidcshim.kemo.dev/shim" && INJECT_ANNOTATION == "oidcshim.kemo.dev/inject"
    ensures STATUS_ANNOTATION == "oidcshim.kemo.dev/status" && SHIMS_ANNOTATION == "oidcshim.kemo.dev/shims"
    ensures CONTAINERS_ANNOTATION == "oidcshim.kemo.dev/containers" && STATUS_INJECTED == "injected"
    ensures HelperConfAnnotation(shim) == "oidcshim.kemo.dev/helper-conf-" + shim
    ensures FileAnnotation(shim, 0) == "oidcshim.kemo.dev/file-" + shim + "-0"
    ensures ShimLabelKey(shim) == "oidcshim.kemo.dev/shim-" + shim
    ensures LABEL_NAMESPACED == "namespaced" && LABEL_CLUSTER == "cluster"
    ensures AnnotationFieldRef(shim) == "metadata.annotations['" + shim + "']"
    ensures HELPER_CONF_PATH == "/etc/oidcshim/helper.conf" && SOCKET_VOLUME_NAME == "spiffe-workload-api"
    ensures FilesSubPath(0) == "files/0"
  {
  }

  /* ---------- which keys can coincide ---------- */

  lemma PrefixCancel(p: string, a: string, b: string)
    ensures p + a == p + b <==> a == b
  {
    assert (p + a)[|p|..] == a && (p + b)[|p|..] == b;
  }

  lemma FieldRefRoundTrip(key: string)
    ensures AnnotationSelected(AnnotationFieldRef(key)) == Some(key)
  {
    var f := AnnotationFieldRef(key);
    assert f[..|FIELD_REF_HEAD|] == FIELD_REF_HEAD;
    assert f[|f| - |FIELD_REF_TAIL|..] == FIELD_REF_TAIL;
    assert f[|FIELD_REF_HEAD|..|f| - |FIELD_REF_TAIL|] == key;
  }

  /** Two file annotations are the same key exactly when shim and index agree, dashes or not. */
  lemma FileAnnotationInjective(a: string, i: nat, b: string, j: nat)
    ensures FileAnnotation(a, i) == FileAnnotation(b, j) <==> a == b && i == j
  {
    assert FileAnnotation(a, i) == FILE_ANNOTATION_PREFIX + (a + "-" + Itoa(i));
    assert FileAnnotation(b, j) == FILE_ANNOTATION_PREFIX + (b + "-" + Itoa(j));
    PrefixCancel(FILE_ANNOTATION_PREFIX, a + "-" + Itoa(i), b + "-" + Itoa(j));
    DashNumeralInjective(a, i, b, j);
  }

  lemma FilesSubPathInjective(i: nat, j: nat)
    ensures FilesSubPath(i) == FilesSubPath(j) <==> i == j
    ensures FilesSubPath(i) != HELPER_CONF_FILE
    ensures FilesSubPath(i) != ""
  {
    PrefixCancel(FILES_SUB_PATH_DIR + "/", Itoa(i), Itoa(j));
    AtoiItoa(i);
    AtoiItoa(j);
    assert FilesSubPath(i)[0] == 'f' && HELPER_CONF_FILE[0] == 'h';
  }

  /** The keys of one shim's payload are never a bookkeeping key or a key read from the pod. */
  lemma PayloadKeysApart(shim: string, i: nat, other: string)
    ensures HelperConfAnnotation(shim) == HelperConfAnnotation(other) <==> shim == other
    ensures FileAnnotation(shim, i) != HelperConfAnnotation(other)
    ensures FileAnnotation(shim, i) !in {STATUS_ANNOTATION, SHIMS_ANNOTATION, CONTAINERS_ANNOTATION}
    ensures HelperConfAnnotation(shim) !in {STATUS_ANNOTATION, SHIMS_ANNOTATION, CONTAINERS_ANNOTATION}
  {
    PrefixCancel(HELPER_CONF_ANNOTATION_PREFIX, shim, other);
    var k := |GROUP_PREFIX| + 1;
    assert FileAnnotation(shim, i)[k] == 'f';
    assert HelperConfAnnotation(shim)[k] == 'h' && HelperConfAnnotation(other)[k] == 'h';
    assert STATUS_ANNOTATION[k] == 's' && SHIMS_ANNOTATION[k] == 's' && CONTAINERS_ANNOTATION[k] == 'c';
  }

  lemma BookkeepingKeysApart()
    ensures STATUS_ANNOTATION != SHIMS_ANNOTATION
    ensures CONTAINERS_ANNOTATION !in {STATUS_ANNOTATION, SHIMS_ANNOTATION}
  {
    var k := |GROUP_PREFIX| + 1;
    assert STATUS_ANNOTATION[k + 1] == 't' && SHIMS_ANNOTATION[k + 1] == 'h';
    assert CONTAINERS_ANNOTATION[k] == 'c';
  }

  /** Derived object names: one shim's two containers differ, and no two shims share any. */
  lemma DerivedNamesApart(a: string, b: string)
    ensures InitContainerName(a) == InitContainerName(b) <==> a == b
    ensures RefreshContainerName(a) == RefreshContainerName(b) <==> a == b
    ensures InitContainerName(a) != RefreshContainerName(b)
    ensures ConfigVolumeName(a) == ConfigVolumeName(b) <==> a == b
    ensures ConfigVolumeName(a) != SOCKET_VOLUME_NAME
  {
    PrefixCancel("oidcshim-init-", a, b);
    PrefixCancel("oidcshim-refresh-", a, b);
    PrefixCancel("oidcshim-config-", a, b);
    assert InitContainerName(a)[9] == 'i' && RefreshContainerName(b)[9] == 'r';
    assert ConfigVolumeName(a)[0] == 'o' && SOCKET_VOLUME_NAME[0] == 's';
  }

  /* ---------- which derived names the API server admits ---------- */

  const MAX_LABEL_LENGTH := 63
  const MAX_SHIM_NAME_LENGTH := 46

  predicate Alphanumeric(c: char) { 'a' <= c <= 'z' || '0' <= c <= '9' }

  predicate LabelChars(s: string)
  {
    forall i :: 0 <= i < |s| ==> Alphanumeric(s[i]) || s[i] == '-'
  }

  /** An RFC 1123 label, as container and volume names have to be. */
  predicate DnsLabel(s: string)
  {
    s != "" && |s| <= MAX_LABEL_LENGTH && LabelChars(s) && Alphanumeric(s[0]) && Alphanumeric(s[|s| - 1])
  }

  /** A shim name whose derived names are labels. */
  predicate NameFits(shim: string)
  {
    shim != "" && |shim| <= MAX_SHIM_NAME_LENGTH && LabelChars(shim) && Alphanumeric(shim[|shim| - 1])
  }

  lemma PrefixedLabel(p: string, s: string)
    requires p != "" && LabelChars(p) && Alphanumeric(p[0]) && p[|p| - 1] == '-'
    ensures DnsLabel(p + s)
            <==> s != "" && |p| + |s| <= MAX_LABEL_LENGTH && LabelChars(s) && Alphanumeric(s[|s| - 1])
  {
    var t := p + s;
    if s == "" {
      assert t == p;
    } else {
      assert t[|t| - 1] == s[|s| - 1];
      assert LabelChars(t) <==> LabelChars(s) by {
        if LabelChars(t) {
          forall i | 0 <= i < |s| ensures Alphanumeric(s[i]) || s[i] == '-' {
            assert s[i] == t[|p| + i];
          }
        }
      }
    }
  }

  /** The cap on shim names is the exact one: the longest derived name is the refresh container's. */
  lemma DerivedNamesAreLabels(shim: string)
    ensures DnsLabel(RefreshContainerName(shim)) <==> NameFits(shim)
    ensures NameFits(shim) ==> DnsLabel(InitContainerName(shim)) && DnsLabel(ConfigVolumeName(shim))
  {
    assert LabelChars("oidcshim-refresh-") && LabelChars("oidcshim-init-") && LabelChars("oidcshim-config-");
    PrefixedLabel("oidcshim-refresh-", shim);
    PrefixedLabel("oidcshim-init-", shim);
    PrefixedLabel("oidcshim-config-", shim);
  }

  /** The names objects can have: labels joined by dots. */
  predicate Subdomain(s: string)
  {
    && s != "" && Alphanumeric(s[0]) && Alphanumeric(s[|s| - 1])
    && forall i :: 0 <= i < |s| ==> Alphanumeric(s[i]) || s[i] == '-' || s[i] == '.'
  }

  /** Of those, exactly the ones without a dot and within the cap fit. */
  lemma ObjectNameFits(shim: string)
    requires Subdomain(shim)
    ensures NameFits(shim) <==> '.' !in shim && |shim| <= MAX_SHIM_NAME_LENGTH
  {
    if '.' in shim {
      var i :| 0 <= i < |shim| && shim[i] == '.';
      assert !LabelChars(shim);
    }
  }

  lemma SocketNameIsLabel()
    ensures DnsLabel(SOCKET_VOLUME_NAME)
  {
  }

  /* ---------- shim keys ---------- */

  predicate ObjectName(s: string)
  {
    s != "" && Trimmed(s) && ',' !in s && '/' !in s
  }

  predicate WellNamed(id: ShimId)
  {
    ObjectName(id.name) && (id.Namespaced? ==> ObjectName(id.namespace))
  }

  /** Object names cannot contain '/', so the key determines kind, namespace and name. */
  lemma ShimKeyInjective(a: ShimId, b: ShimId)
    requires WellNamed(a) && WellNamed(b)
    ensures ShimKey(a) == ShimKey(b) <==> a == b
  {
    ShimKeyParts(a);
    ShimKeyParts(b);
  }

  lemma ShimKeyParts(id: ShimId)
    requires WellNamed(id)
    ensures Split(ShimKey(id), '/')
            == match id
               case Namespaced(ns, name) => ["OIDCShim", ns, name]
               case ClusterWide(name) => ["ClusterOIDCShim", name]
  {
    match id
    case Namespaced(ns, name) =>
      assert ShimKey(id) == "OIDCShim" + ['/'] + (ns + ['/'] + name);
      SplitAtSep("OIDCShim", '/', ns + ['/'] + name);
      SplitAtSep(ns, '/', name);
      SplitNoSep(name, '/');
    case ClusterWide(name) =>
      assert ShimKey(id) == "ClusterOIDCShim" + ['/'] + name;
      SplitAtSep("ClusterOIDCShim", '/', name);
      SplitNoSep(name, '/');
  }

  lemma ShimKeyCommaSafe(id: ShimId)
    requires WellNamed(id)
    ensures CommaSafe(ShimKey(id))
  {
    var key := ShimKey(id);
    assert !IsSpace(key[0]);
    assert key[|key| - 1] == id.name[|id.name| - 1];
  }
}
