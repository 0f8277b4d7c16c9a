/**
 The names an MCPServer refers to, the field indexes built from them, and the reads a
 reconcile performs on them. Whatever is read is indexed, so a change to it is mapped
 back to the server.
 */
module References {
  import opened Wrappers
  import opened Strings
  import opened GatewayProvider

  datatype StorageType = ConfigMapStorage | SecretStorage | EmptyDirStorage | UnknownStorage
  datatype Ref = Ref(name: string, optional: bool)
  datatype StorageMount = StorageMount(stype: StorageType, configMap: Option<Ref>, secret: Option<Ref>, emptyDir: bool)
  /** An envFrom entry or the valueFrom of an env entry: at most one reference of each kind. */
  datatype EnvSource = EnvSource(configMapRef: Option<Ref>, secretRef: Option<Ref>)
  datatype Env = Env(valueFrom: Option<EnvSource>)
  datatype TLS = TLS(enabled: bool, insecureSkipVerify: bool, caBundleSecret: Option<string>)
  datatype Gateway = Gateway(provider: Provider, configRef: string)
  datatype WorkloadKind = Deployment | DaemonSet | StatefulSet | UnsupportedKind
  datatype WorkloadRef = WorkloadRef(kind: WorkloadKind, name: string)
  datatype Spec = Spec(
    storage: seq<StorageMount>,
    envFrom: seq<EnvSource>,
    env: seq<Env>,
    gateway: Option<Gateway>,
    tls: Option<TLS>,
    workloadRef: Option<WorkloadRef>,
    serviceRef: Option<string>,
    configPort: int,
    ingressDeclared: bool)

  // ---- What a spec refers to ----

  function StorageConfigMap(m: StorageMount): Option<string> {
    if m.stype == ConfigMapStorage && m.configMap.Some? then Some(m.configMap.value.name) else None
  }

  function StorageSecret(m: StorageMount): Option<string> {
    if m.stype == SecretStorage && m.secret.Some? then Some(m.secret.value.name) else None
  }

  function NameOf(r: Option<Ref>): Option<string> {
    if r.Some? then Some(r.value.name) else None
  }

  function EnvConfigMap(e: Env): Option<string> {
    if e.valueFrom.Some? then NameOf(e.valueFrom.value.configMapRef) else None
  }

  function EnvSecret(e: Env): Option<string> {
    if e.valueFrom.Some? then NameOf(e.valueFrom.value.secretRef) else None
  }

  function GatewayConfigMap(s: Spec): Option<string> {
    if s.gateway.Some? && s.gateway.value.configRef != "" then Some(s.gateway.value.configRef) else None
  }

  function CABundle(s: Spec): Option<string> {
    if s.tls.Some? then s.tls.value.caBundleSecret else None
  }

  ghost predicate RefersToConfigMap(s: Spec, n: string) {
    || (exists i :: 0 <= i < |s.storage| && StorageConfigMap(s.storage[i]) == Some(n))
    || (exists i :: 0 <= i < |s.envFrom| && NameOf(s.envFrom[i].configMapRef) == Some(n))
    || (exists i :: 0 <= i < |s.env| && EnvConfigMap(s.env[i]) == Some(n))
    || GatewayConfigMap(s) == Some(n)
  }

  ghost predicate PodRefersToSecret(s: Spec, n: string) {
    || (exists i :: 0 <= i < |s.storage| && StorageSecret(s.storage[i]) == Some(n))
    || (exists i :: 0 <= i < |s.envFrom| && NameOf(s.envFrom[i].secretRef) == Some(n))
    || (exists i :: 0 <= i < |s.env| && EnvSecret(s.env[i]) == Some(n))
  }

  /** A duplicate-free list of exactly the ConfigMaps, or the pod's Secrets, a spec refers to. */
  ghost predicate ListsConfigMaps(s: Spec, names: seq<string>) {
    Distinct(names) && forall n :: n in names <==> RefersToConfigMap(s, n)
  }

  ghost predicate ListsPodSecrets(s: Spec, names: seq<string>) {
    Distinct(names) && forall n :: n in names <==> PodRefersToSecret(s, n)
  }

  // ---- Index extractors ----

  /** Append a name the first time it is seen. */
  method AddName(
    names: seq<string>, seen: set<string>, name: Option<string>) returns (out: seq<string>, seen': set<string>)
    requires Distinct(names) && seen == set x | x in names
    ensures Distinct(out) && seen' == set x | x in out
    ensures forall n :: n in out <==> n in names || name == Some(n)
  {
    out, seen' := names, seen;
    if name.Some? && name.value !in seen {
      out := names + [name.value];
      seen' := seen + {name.value};
      forall i, j | 0 <= i < j < |out| ensures out[i] != out[j] {
        assert out[i] in names;
      }
    }
  }

  method ExtractConfigMapNames(s: Spec) returns (names: seq<string>)
    ensures ListsConfigMaps(s, names)
  {
    names := [];
    var seen: set<string> := {};
    for i := 0 to |s.storage|
      invariant Distinct(names) && seen == set x | x in names
      invariant forall n :: n in names <==> exists k :: 0 <= k < i && StorageConfigMap(s.storage[k]) == Some(n)
    {
      names, seen := AddName(names, seen, StorageConfigMap(s.storage[i]));
    }
    ghost var a := names;
    for i := 0 to |s.envFrom|
      invariant Distinct(names) && seen == set x | x in names
      invariant forall n ::
        n in names <==> n in a || exists k :: 0 <= k < i && NameOf(s.envFrom[k].configMapRef) == Some(n)
    {
      names, seen := AddName(names, seen, NameOf(s.envFrom[i].configMapRef));
    }
    ghost var b := names;
    for i := 0 to |s.env|
      invariant Distinct(names) && seen == set x | x in names
      invariant forall n :: n in names <==> n in b || exists k :: 0 <= k < i && EnvConfigMap(s.env[k]) == Some(n)
    {
      names, seen := AddName(names, seen, EnvConfigMap(s.env[i]));
    }
    names, seen := AddName(names, seen, GatewayConfigMap(s));
  }

  method ExtractPodSecretNames(s: Spec) returns (names: seq<string>)
    ensures ListsPodSecrets(s, names)
  {
    names := [];
    var seen: set<string> := {};
    for i := 0 to |s.storage|
      invariant Distinct(names) && seen == set x | x in names
      invariant forall n :: n in names <==> exists k :: 0 <= k < i && StorageSecret(s.storage[k]) == Some(n)
    {
      names, seen := AddName(names, seen, StorageSecret(s.storage[i]));
    }
    ghost var a := names;
    for i := 0 to |s.envFrom|
      invariant Distinct(names) && seen == set x | x in names
      invariant forall n ::
        n in names <==> n in a || exists k :: 0 <= k < i && NameOf(s.envFrom[k].secretRef) == Some(n)
    {
      names, seen := AddName(names, seen, NameOf(s.envFrom[i].secretRef));
    }
    ghost var b := names;
    for i := 0 to |s.env|
      invariant Distinct(names) && seen == set x | x in names
      invariant forall n :: n in names <==> n in b || exists k :: 0 <= k < i && EnvSecret(s.env[k]) == Some(n)
    {
      names, seen := AddName(names, seen, EnvSecret(s.env[i]));
    }
  }

  method ExtractSecretNames(s: Spec) returns (names: seq<string>)
    ensures Distinct(names)
    ensures forall n :: n in names <==> PodRefersToSecret(s, n) || CABundle(s) == Some(n)
  {
    names := ExtractPodSecretNames(s);
    var seen := set x | x in names;
    names, seen := AddName(names, seen, CABundle(s));
  }

  // ---- Reads of a reconcile ----

  datatype Resource = ConfigMap(name: string) | Secret(name: string) | Workload(name: string) | Service(name: string)

  /** The outcome of the uncached read of each resource; anything but Found ends a required read. */
  datatype Result = Found | NotFound | ReadError
  type Api = Resource -> Result

  /** Reads performed so far, and whether the phase goes on. */
  datatype Trace = Trace(log: seq<Resource>, ok: bool)

  function ReadRequired(t: Trace, r: Resource, api: Api): Trace {
    if !t.ok then t else Trace(t.log + [r], api(r) == Found)
  }

  function ValidateMount(t: Trace, m: StorageMount, api: Api): Trace {
    if !t.ok then t
    else match m.stype
      case ConfigMapStorage =>
        if m.configMap.None? || m.configMap.value.name == "" then t.(ok := false)
        else if m.configMap.value.optional then t
        else ReadRequired(t, ConfigMap(m.configMap.value.name), api)
      case SecretStorage =>
        if m.secret.None? || m.secret.value.name == "" then t.(ok := false)
        else if m.secret.value.optional then t
        else ReadRequired(t, Secret(m.secret.value.name), api)
      case EmptyDirStorage => t.(ok := m.emptyDir)
      case UnknownStorage => t.(ok := false)
  }

  function ValidateEnvSource(t: Trace, e: EnvSource, api: Api): Trace {
    var t1 := if e.configMapRef.Some? && !e.configMapRef.value.optional
      then ReadRequired(t, ConfigMap(e.configMapRef.value.name), api) else t;
    if e.secretRef.Some? && !e.secretRef.value.optional then ReadRequired(t1, Secret(e.secretRef.value.name), api)
      else t1
  }

  function ValidateMounts(t: Trace, ms: seq<StorageMount>, api: Api): Trace
    decreases |ms|
  {
    if ms == [] then t else ValidateMounts(ValidateMount(t, ms[0], api), ms[1..], api)
  }

  function ValidateEnvFrom(t: Trace, es: seq<EnvSource>, api: Api): Trace
    decreases |es|
  {
    if es == [] then t else ValidateEnvFrom(ValidateEnvSource(t, es[0], api), es[1..], api)
  }

  function ValidateEnv(t: Trace, es: seq<Env>, api: Api): Trace
    decreases |es|
  {
    if es == [] then t
    else
      var t' := if es[0].valueFrom.Some? then ValidateEnvSource(t, es[0].valueFrom.value, api) else t;
      ValidateEnv(t', es[1..], api)
  }

  /** validateConfigAndResolveWorkload: the order of its reads and its early exits. */
  function Validation(s: Spec, networkValid: bool, api: Api): Trace {
    var t0 := Trace([], true);
    var t1 := if s.workloadRef.None? then t0
              else if s.workloadRef.value.kind == UnsupportedKind then t0.(ok := false)
              else ReadRequired(t0, Workload(s.workloadRef.value.name), api);
    var t2 := if s.serviceRef.Some? then ReadRequired(t1, Service(s.serviceRef.value), api) else t1;
    var t3 := if s.workloadRef.None?
      then ValidateEnv(ValidateEnvFrom(ValidateMounts(t2, s.storage, api), s.envFrom, api), s.env, api) else t2;
    var t4 := if t3.ok then t3.(ok := networkValid) else t3;
    if s.tls.None? || !s.tls.value.enabled || s.tls.value.caBundleSecret.None? then t4
    else if s.tls.value.insecureSkipVerify then t4.(ok := false)
    else ReadRequired(t4, Secret(s.tls.value.caBundleSecret.value), api)
  }

  // ---- Reads after validation ----

  /** A read whose object may be missing; only a failing read ends the phase. */
  function ReadIfPresent(t: Trace, r: Resource, api: Api): Trace {
    if !t.ok then t else Trace(t.log + [r], api(r) != ReadError)
  }

  /** A read whose outcome never ends the phase. */
  function ReadAnyway(t: Trace, r: Resource): Trace {
    if !t.ok then t else t.(log := t.log + [r])
  }

  /** Another step of the reconcile, which may end it. */
  function Proceed(t: Trace, succeeds: bool): Trace {
    t.(ok := t.ok && succeeds)
  }

  function ReadConfigMaps(t: Trace, names: seq<string>, api: Api): Trace
    decreases |names|
  {
    if names == [] then t else ReadConfigMaps(ReadIfPresent(t, ConfigMap(names[0]), api), names[1..], api)
  }

  function ReadSecrets(t: Trace, names: seq<string>, api: Api): Trace
    decreases |names|
  {
    if names == [] then t else ReadSecrets(ReadIfPresent(t, Secret(names[0]), api), names[1..], api)
  }

  /** How the steps between the reads turn out. */
  datatype Course = Course(restricted: bool, deploys: bool, cleansUp: bool, restricts: bool, binds: bool, dials: bool)

  /** reconcileDeployment: the config hash reads every extracted name in sorted order. */
  function HashReads(t: Trace, configMaps: seq<string>, secrets: seq<string>, api: Api): Trace {
    ReadSecrets(ReadConfigMaps(t, Sort(configMaps), api), Sort(secrets), api)
  }

  /** reconcileServiceOrBYO: resolving an unknown port, and looking at the external Service before a clean-up. */
  function ServiceReads(t: Trace, s: Spec, cleansUp: bool, api: Api): Trace {
    if s.serviceRef.None? then t
    else
      var service := Service(s.serviceRef.value);
      var t1 := if s.workloadRef.None? || s.configPort <= 0 then ReadRequired(t, service, api) else t;
      if cleansUp then ReadRequired(t1, service, api) else t1
  }

  /** gatewayIngressPeers: one ConfigMap, when the restricted posture derives the gateway's namespace. */
  function GatewayReads(t: Trace, s: Spec, restricted: bool, api: Api): Trace {
    if !restricted || s.gateway.None? || s.ingressDeclared then t
    else if s.gateway.value.provider.OtherProvider? || s.gateway.value.configRef == "" then t
    else ReadIfPresent(t, ConfigMap(s.gateway.value.configRef), api)
  }

  /** The CA bundle, once for its hash and once more for the transport of a dial. */
  function CABundleReads(t: Trace, s: Spec, dials: bool): Trace {
    if s.tls.None? || !s.tls.value.enabled || s.tls.value.insecureSkipVerify || s.tls.value.caBundleSecret.None? then t
    else
      var secret := Secret(s.tls.value.caBundleSecret.value);
      var t1 := ReadAnyway(t, secret);
      if dials then ReadAnyway(t1, secret) else t1
  }

  /** Reconcile after validation, for managed and for referenced workloads. */
  function Operation(s: Spec, configMaps: seq<string>, secrets: seq<string>, course: Course, api: Api): Trace {
    var t0 := Trace([], true);
    var t1 := if s.workloadRef.None? then Proceed(HashReads(t0, configMaps, secrets, api), course.deploys) else t0;
    var t2 := ServiceReads(t1, s, course.cleansUp, api);
    var t3 := if s.workloadRef.None? then Proceed(GatewayReads(t2, s, course.restricted, api), course.restricts)
      else t2;
    CABundleReads(Proceed(t3, course.binds), s, course.dials)
  }

  /** The index entry under which a resource's events find the server. */
  ghost predicate Indexed(s: Spec, r: Resource) {
    match r
    case ConfigMap(n) => RefersToConfigMap(s, n)
    case Secret(n) => PodRefersToSecret(s, n) || CABundle(s) == Some(n)
    case Workload(n) => s.workloadRef.Some? && s.workloadRef.value.name == n
    case Service(n) => s.serviceRef == Some(n)
  }

  ghost predicate AllIndexed(s: Spec, log: seq<Resource>) {
    forall i :: 0 <= i < |log| ==> Indexed(s, log[i])
  }

  lemma {:induction false} MountsIndexed(s: Spec, t: Trace, k: nat, api: Api)
    requires k <= |s.storage| && AllIndexed(s, t.log)
    ensures AllIndexed(s, ValidateMounts(t, s.storage[k..], api).log)
    decreases |s.storage| - k
  {
    if k < |s.storage| {
      var m := s.storage[k];
      assert StorageConfigMap(m).Some? ==> RefersToConfigMap(s, m.configMap.value.name);
      assert StorageSecret(m).Some? ==> PodRefersToSecret(s, m.secret.value.name);
      assert s.storage[k..][1..] == s.storage[k + 1..];
      MountsIndexed(s, ValidateMount(t, m, api), k + 1, api);
    }
  }

  lemma {:induction false} EnvFromIndexed(s: Spec, t: Trace, k: nat, api: Api)
    requires k <= |s.envFrom| && AllIndexed(s, t.log)
    ensures AllIndexed(s, ValidateEnvFrom(t, s.envFrom[k..], api).log)
    decreases |s.envFrom| - k
  {
    if k < |s.envFrom| {
      var e := s.envFrom[k];
      assert e.configMapRef.Some? ==> RefersToConfigMap(s, e.configMapRef.value.name);
      assert e.secretRef.Some? ==> PodRefersToSecret(s, e.secretRef.value.name);
      assert s.envFrom[k..][1..] == s.envFrom[k + 1..];
      EnvFromIndexed(s, ValidateEnvSource(t, e, api), k + 1, api);
    }
  }

  lemma {:induction false} EnvIndexed(s: Spec, t: Trace, k: nat, api: Api)
    requires k <= |s.env| && AllIndexed(s, t.log)
    ensures AllIndexed(s, ValidateEnv(t, s.env[k..], api).log)
    decreases |s.env| - k
  {
    if k < |s.env| {
      assert s.env[k..][1..] == s.env[k + 1..];
      if s.env[k].valueFrom.Some? {
        var e := s.env[k].valueFrom.value;
        assert e.configMapRef.Some? ==> EnvConfigMap(s.env[k]) == Some(e.configMapRef.value.name);
        assert e.secretRef.Some? ==> EnvSecret(s.env[k]) == Some(e.secretRef.value.name);
        EnvIndexed(s, ValidateEnvSource(t, e, api), k + 1, api);
      } else {
        EnvIndexed(s, t, k + 1, api);
      }
    }
  }

  /** Every reference validation reads, on whatever path it takes, is in the matching index. */
  lemma ValidationReadsIndexed(s: Spec, networkValid: bool, api: Api)
    ensures AllIndexed(s, Validation(s, networkValid, api).log)
  {
    var t0 := Trace([], true);
    var t1 := if s.workloadRef.None? then t0
              else if s.workloadRef.value.kind == UnsupportedKind then t0.(ok := false)
              else ReadRequired(t0, Workload(s.workloadRef.value.name), api);
    var t2 := if s.serviceRef.Some? then ReadRequired(t1, Service(s.serviceRef.value), api) else t1;
    assert AllIndexed(s, t2.log);
    assert s.storage[0..] == s.storage && s.envFrom[0..] == s.envFrom && s.env[0..] == s.env;
    MountsIndexed(s, t2, 0, api);
    EnvFromIndexed(s, ValidateMounts(t2, s.storage, api), 0, api);
    EnvIndexed(s, ValidateEnvFrom(ValidateMounts(t2, s.storage, api), s.envFrom, api), 0, api);
  }

  lemma {:induction false} ConfigMapsIndexed(s: Spec, t: Trace, names: seq<string>, api: Api)
    requires AllIndexed(s, t.log) && forall n :: n in names ==> RefersToConfigMap(s, n)
    ensures AllIndexed(s, ReadConfigMaps(t, names, api).log)
    decreases |names|
  {
    if names != [] {
      assert RefersToConfigMap(s, names[0]);
      ConfigMapsIndexed(s, ReadIfPresent(t, ConfigMap(names[0]), api), names[1..], api);
    }
  }

  lemma {:induction false} SecretsIndexed(s: Spec, t: Trace, names: seq<string>, api: Api)
    requires AllIndexed(s, t.log) && forall n :: n in names ==> PodRefersToSecret(s, n)
    ensures AllIndexed(s, ReadSecrets(t, names, api).log)
    decreases |names|
  {
    if names != [] {
      assert PodRefersToSecret(s, names[0]);
      SecretsIndexed(s, ReadIfPresent(t, Secret(names[0]), api), names[1..], api);
    }
  }

  lemma HashReadsIndexed(s: Spec, t: Trace, configMaps: seq<string>, secrets: seq<string>, api: Api)
    requires AllIndexed(s, t.log) && ListsConfigMaps(s, configMaps) && ListsPodSecrets(s, secrets)
    ensures AllIndexed(s, HashReads(t, configMaps, secrets, api).log)
  {
    SortDistinct(configMaps);
    SortDistinct(secrets);
    ConfigMapsIndexed(s, t, Sort(configMaps), api);
    SecretsIndexed(s, ReadConfigMaps(t, Sort(configMaps), api), Sort(secrets), api);
  }

  lemma ServiceReadsIndexed(s: Spec, t: Trace, cleansUp: bool, api: Api)
    requires AllIndexed(s, t.log)
    ensures AllIndexed(s, ServiceReads(t, s, cleansUp, api).log)
  {
  }

  lemma GatewayReadsIndexed(s: Spec, t: Trace, restricted: bool, api: Api)
    requires AllIndexed(s, t.log)
    ensures AllIndexed(s, GatewayReads(t, s, restricted, api).log)
  {
  }

  lemma CABundleReadsIndexed(s: Spec, t: Trace, dials: bool)
    requires AllIndexed(s, t.log)
    ensures AllIndexed(s, CABundleReads(t, s, dials).log)
  {
  }

  /** Every reference the rest of the reconcile reads, on whatever course it takes, is in the matching index. */
  lemma OperationReadsIndexed(s: Spec, configMaps: seq<string>, secrets: seq<string>, course: Course, api: Api)
    requires ListsConfigMaps(s, configMaps) && ListsPodSecrets(s, secrets)
    ensures AllIndexed(s, Operation(s, configMaps, secrets, course, api).log)
  {
    var t0 := Trace([], true);
    HashReadsIndexed(s, t0, configMaps, secrets, api);
    var t1 := if s.workloadRef.None? then Proceed(HashReads(t0, configMaps, secrets, api), course.deploys) else t0;
    ServiceReadsIndexed(s, t1, course.cleansUp, api);
    var t2 := ServiceReads(t1, s, course.cleansUp, api);
    GatewayReadsIndexed(s, t2, course.restricted, api);
    var t3 := if s.workloadRef.None? then Proceed(GatewayReads(t2, s, course.restricted, api), course.restricts)
      else t2;
    CABundleReadsIndexed(s, Proceed(t3, course.binds), course.dials);
  }

  // ---- What validation accepts ----

  predicate RefFound(r: Option<Ref>, api: Api, mk: string -> Resource) {
    r.Some? && !r.value.optional ==> api(mk(r.value.name)) == Found
  }

  predicate SourceOk(e: EnvSource, api: Api) {
    RefFound(e.configMapRef, api, n => ConfigMap(n)) && RefFound(e.secretRef, api, n => Secret(n))
  }

  predicate MountOk(m: StorageMount, api: Api) {
    match m.stype
    case ConfigMapStorage =>
      m.configMap.Some? && m.configMap.value.name != "" && RefFound(m.configMap, api, n => ConfigMap(n))
    case SecretStorage => m.secret.Some? && m.secret.value.name != "" && RefFound(m.secret, api, n => Secret(n))
    case EmptyDirStorage => m.emptyDir
    case UnknownStorage => false
  }

  predicate EnvOk(e: Env, api: Api) {
    e.valueFrom.Some? ==> SourceOk(e.valueFrom.value, api)
  }

  /** Every reference that is not optional names an object that is there, and every mount is well-formed. */
  predicate PodRefsOk(s: Spec, api: Api) {
    && (forall i :: 0 <= i < |s.storage| ==> MountOk(s.storage[i], api))
    && (forall i :: 0 <= i < |s.envFrom| ==> SourceOk(s.envFrom[i], api))
    && (forall i :: 0 <= i < |s.env| ==> EnvOk(s.env[i], api))
  }

  predicate TransportOk(s: Spec, api: Api) {
    s.tls.Some? && s.tls.value.enabled && s.tls.value.caBundleSecret.Some? ==>
      !s.tls.value.insecureSkipVerify && api(Secret(s.tls.value.caBundleSecret.value)) == Found
  }

  predicate WorkloadOk(s: Spec, api: Api) {
    s.workloadRef.Some? ==>
      s.workloadRef.value.kind != UnsupportedKind && api(Workload(s.workloadRef.value.name)) == Found
  }

  predicate Acceptable(s: Spec, networkValid: bool, api: Api) {
    && WorkloadOk(s, api)
    && (s.serviceRef.Some? ==> api(Service(s.serviceRef.value)) == Found)
    && (s.workloadRef.None? ==> PodRefsOk(s, api))
    && networkValid && TransportOk(s, api)
  }

  lemma {:induction false} MountsExact(t: Trace, ms: seq<StorageMount>, api: Api)
    ensures ValidateMounts(t, ms, api).ok <==> t.ok && forall i :: 0 <= i < |ms| ==> MountOk(ms[i], api)
    decreases |ms|
  {
    if ms != [] {
      MountsExact(ValidateMount(t, ms[0], api), ms[1..], api);
      assert ValidateMount(t, ms[0], api).ok <==> t.ok && MountOk(ms[0], api);
      assert forall i :: 0 < i < |ms| ==> ms[i] == ms[1..][i - 1];
    }
  }

  lemma {:induction false} EnvFromExact(t: Trace, es: seq<EnvSource>, api: Api)
    ensures ValidateEnvFrom(t, es, api).ok <==> t.ok && forall i :: 0 <= i < |es| ==> SourceOk(es[i], api)
    decreases |es|
  {
    if es != [] {
      EnvFromExact(ValidateEnvSource(t, es[0], api), es[1..], api);
      assert forall i :: 0 < i < |es| ==> es[i] == es[1..][i - 1];
    }
  }

  lemma {:induction false} EnvExact(t: Trace, es: seq<Env>, api: Api)
    ensures ValidateEnv(t, es, api).ok <==> t.ok && forall i :: 0 <= i < |es| ==> EnvOk(es[i], api)
    decreases |es|
  {
    if es != [] {
      var t' := if es[0].valueFrom.Some? then ValidateEnvSource(t, es[0].valueFrom.value, api) else t;
      EnvExact(t', es[1..], api);
      assert forall i :: 0 < i < |es| ==> es[i] == es[1..][i - 1];
    }
  }

  /** Validation accepts a spec exactly when all it requires is there and well-formed. */
  lemma ValidationExact(s: Spec, networkValid: bool, api: Api)
    ensures Validation(s, networkValid, api).ok <==> Acceptable(s, networkValid, api)
  {
    var t0 := Trace([], true);
    var t1 := if s.workloadRef.None? then t0
              else if s.workloadRef.value.kind == UnsupportedKind then t0.(ok := false)
              else ReadRequired(t0, Workload(s.workloadRef.value.name), api);
    var t2 := if s.serviceRef.Some? then ReadRequired(t1, Service(s.serviceRef.value), api) else t1;
    MountsExact(t2, s.storage, api);
    EnvFromExact(ValidateMounts(t2, s.storage, api), s.envFrom, api);
    EnvExact(ValidateEnvFrom(ValidateMounts(t2, s.storage, api), s.envFrom, api), s.env, api);
  }

  // ---- What the later phases read when nothing ends them ----

  ghost predicate Logged(t: Trace, r: Resource) {
    r in t.log
  }

  lemma {:induction false} ConfigMapsRead(t: Trace, names: seq<string>, api: Api)
    requires t.ok && forall n :: n in names ==> api(ConfigMap(n)) != ReadError
    ensures ReadConfigMaps(t, names, api).ok && t.log <= ReadConfigMaps(t, names, api).log
    ensures forall n :: n in names ==> ConfigMap(n) in ReadConfigMaps(t, names, api).log
    decreases |names|
  {
    if names != [] {
      var t' := ReadIfPresent(t, ConfigMap(names[0]), api);
      ConfigMapsRead(t', names[1..], api);
      assert t'.log[|t.log|] == ConfigMap(names[0]);
      assert ReadConfigMaps(t, names, api).log[|t.log|] == ConfigMap(names[0]);
    }
  }

  lemma {:induction false} SecretsRead(t: Trace, names: seq<string>, api: Api)
    requires t.ok && forall n :: n in names ==> api(Secret(n)) != ReadError
    ensures ReadSecrets(t, names, api).ok && t.log <= ReadSecrets(t, names, api).log
    ensures forall n :: n in names ==> Secret(n) in ReadSecrets(t, names, api).log
    decreases |names|
  {
    if names != [] {
      var t' := ReadIfPresent(t, Secret(names[0]), api);
      SecretsRead(t', names[1..], api);
      assert t'.log[|t.log|] == Secret(names[0]);
      assert ReadSecrets(t, names, api).log[|t.log|] == Secret(names[0]);
    }
  }

  lemma HashReadsAll(t: Trace, configMaps: seq<string>, secrets: seq<string>, api: Api)
    requires t.ok && forall r :: api(r) == Found
    requires Distinct(configMaps) && Distinct(secrets)
    ensures var t' := HashReads(t, configMaps, secrets, api);
      && t'.ok
      && (forall n :: n in configMaps ==> ConfigMap(n) in t'.log) && (forall n :: n in secrets ==> Secret(n) in t'.log)
  {
    SortDistinct(configMaps);
    SortDistinct(secrets);
    ConfigMapsRead(t, Sort(configMaps), api);
    SecretsRead(ReadConfigMaps(t, Sort(configMaps), api), Sort(secrets), api);
  }

  /** The trace goes on, with nothing forgotten. */
  ghost predicate Continues(t: Trace, t': Trace) {
    t'.ok && forall r :: r in t.log ==> r in t'.log
  }

  lemma ServiceReadsAll(t: Trace, s: Spec, api: Api)
    requires t.ok && forall r :: api(r) == Found
    ensures Continues(t, ServiceReads(t, s, true, api))
    ensures s.serviceRef.Some? ==> Logged(ServiceReads(t, s, true, api), Service(s.serviceRef.value))
  {
  }

  lemma GatewayReadsAll(t: Trace, s: Spec, api: Api)
    requires t.ok && forall r :: api(r) == Found
    ensures Continues(t, GatewayReads(t, s, true, api))
    ensures DerivesGateway(s) ==> Logged(GatewayReads(t, s, true, api), ConfigMap(s.gateway.value.configRef))
  {
  }

  lemma CABundleReadsAll(t: Trace, s: Spec)
    requires t.ok
    ensures Continues(t, CABundleReads(t, s, true))
    ensures UsesCABundle(s) ==> Logged(CABundleReads(t, s, true), Secret(s.tls.value.caBundleSecret.value))
  {
  }

  /** Under the restricted posture the gateway's namespace is looked up. */
  predicate DerivesGateway(s: Spec) {
    s.gateway.Some? && !s.ingressDeclared && !s.gateway.value.provider.OtherProvider? && s.gateway.value.configRef != ""
  }

  predicate UsesCABundle(s: Spec) {
    s.tls.Some? && s.tls.value.enabled && !s.tls.value.insecureSkipVerify && s.tls.value.caBundleSecret.Some?
  }

  const UNDISTURBED := Course(true, true, true, true, true, true)

  /** An undisturbed reconcile reads all it depends on: every hashed object, the Service, the gateway and CA data. */
  lemma OperationReadsAll(s: Spec, configMaps: seq<string>, secrets: seq<string>, api: Api)
    requires ListsConfigMaps(s, configMaps) && ListsPodSecrets(s, secrets) && forall r :: api(r) == Found
    ensures var t := Operation(s, configMaps, secrets, UNDISTURBED, api);
      && (s.workloadRef.None? ==>
            && (forall n :: RefersToConfigMap(s, n) ==> Logged(t, ConfigMap(n)))
            && (forall n :: PodRefersToSecret(s, n) ==> Logged(t, Secret(n)))
            && (DerivesGateway(s) ==> Logged(t, ConfigMap(s.gateway.value.configRef))))
      && (s.serviceRef.Some? ==> Logged(t, Service(s.serviceRef.value)))
      && (UsesCABundle(s) ==> Logged(t, Secret(s.tls.value.caBundleSecret.value)))
  {
    var t0 := Trace([], true);
    HashReadsAll(t0, configMaps, secrets, api);
    var t1 := if s.workloadRef.None? then HashReads(t0, configMaps, secrets, api) else t0;
    ServiceReadsAll(t1, s, api);
    var t2 := ServiceReads(t1, s, true, api);
    GatewayReadsAll(t2, s, api);
    var t3 := if s.workloadRef.None? then GatewayReads(t2, s, true, api) else t2;
    CABundleReadsAll(t3, s);
    assert Operation(s, configMaps, secrets, UNDISTURBED, api) == CABundleReads(t3, s, true);
  }

  // ---- Mapping an event back to servers ----

  datatype Server = Server(namespace: string, name: string, spec: Spec)

  /** What the field index for the resource's kind holds for this spec. */
  method IndexOf(s: Spec, r: Resource) returns (names: seq<string>)
    ensures Distinct(names)
    ensures r.name in names <==> Indexed(s, r)
  {
    match r {
      case ConfigMap(_) => names := ExtractConfigMapNames(s);
      case Secret(_) => names := ExtractSecretNames(s);
      case Workload(_) => names := if s.workloadRef.Some? then [s.workloadRef.value.name] else [];
      case Service(_) => names := if s.serviceRef.Some? then [s.serviceRef.value] else [];
    }
  }

  /** A request for this server is made on an event of the resource. */
  ghost predicate Enqueued(servers: seq<Server>, namespace: string, r: Resource, name: string) {
    exists i :: 0 <= i < |servers| &&
      servers[i].namespace == namespace && servers[i].name == name && Indexed(servers[i].spec, r)
  }

  /** findMCPServersForResource: list the namespace by index value, one request per server. */
  method FindServers(servers: seq<Server>, namespace: string, r: Resource) returns (requests: seq<string>)
    ensures forall q :: q in requests <==> Enqueued(servers, namespace, r, q)
  {
    requests := [];
    for i := 0 to |servers|
      invariant forall q :: q in requests <==> Enqueued(servers[..i], namespace, r, q)
    {
      assert servers[..i + 1] == servers[..i] + [servers[i]];
      var names := IndexOf(servers[i].spec, r);
      if servers[i].namespace == namespace && r.name in names {
        requests := requests + [servers[i].name];
      }
    }
    assert servers[..|servers|] == servers;
  }

  /** A change to anything a server's reconcile reads, on any path, enqueues that server. */
  lemma NoReadMissed(
    servers: seq<Server>, i: nat, networkValid: bool, configMaps: seq<string>, secrets: seq<string>, course: Course,
    api: Api, r: Resource)
    requires i < |servers|
    requires ListsConfigMaps(servers[i].spec, configMaps) && ListsPodSecrets(servers[i].spec, secrets)
    requires r in Validation(servers[i].spec, networkValid, api).log
      || r in Operation(servers[i].spec, configMaps, secrets, course, api).log
    ensures Enqueued(servers, servers[i].namespace, r, servers[i].name)
  {
    ValidationReadsIndexed(servers[i].spec, networkValid, api);
    OperationReadsIndexed(servers[i].spec, configMaps, secrets, course, api);
    assert Indexed(servers[i].spec, r);
  }
}
