/**
 Conversion between the served v1alpha1 version and the hub version v1beta1.
 Kubernetes values that both versions share and copy verbatim are kept abstract.
 */
module V1Alpha1 {
  import opened Wrappers
  import opened Conditions

  type Verbatim = string

  datatype ContainerImageSource = ContainerImageSource(ref: string, pullPolicy: string, imagePullSecrets: seq<Verbatim>)
  datatype Source = Source(stype: string, containerImage: Option<ContainerImageSource>)
  datatype StorageSource = StorageSource(
    stype: string, configMap: Option<Verbatim>, secret: Option<Verbatim>, emptyDir: Option<Verbatim>)
  datatype StorageMount = StorageMount(path: string, permissions: string, source: StorageSource)
  datatype ServerConfig = ServerConfig(
    port: int, arguments: seq<string>, env: seq<Verbatim>, envFrom: seq<Verbatim>, storage: seq<StorageMount>,
      path: string)
  datatype SecurityConfig = SecurityConfig(
    serviceAccountName: string, podSecurityContext: Option<Verbatim>, securityContext: Option<Verbatim>)
  datatype HealthConfig = HealthConfig(livenessProbe: Option<Verbatim>, readinessProbe: Option<Verbatim>)
  datatype RuntimeConfig = RuntimeConfig(
    replicas: Option<int>, security: SecurityConfig, resources: Option<Verbatim>, health: HealthConfig)
  datatype MCPConfig = MCPConfig(stateless: Option<bool>)
  datatype NetworkConfig = NetworkConfig(
    ingressFrom: seq<Verbatim>, egressTo: seq<Verbatim>, egressPorts: seq<Verbatim>, dnsEgressPeer: Option<Verbatim>)
  datatype TLSClientConfig = TLSClientConfig(enabled: bool, insecureSkipVerify: bool, caBundleSecret: Option<string>)
  datatype TransportConfig = TransportConfig(tls: Option<TLSClientConfig>)
  datatype Spec = Spec(
    extraLabels: map<string, string>, extraAnnotations: map<string, string>,
    source: Source, config: ServerConfig, runtime: RuntimeConfig, mcp: MCPConfig,
    network: Option<NetworkConfig>, transport: Option<TransportConfig>)
  datatype Address = Address(url: string)
  datatype Capabilities = Capabilities(tools: bool, resources: bool, prompts: bool, logging: bool, completions: bool)
  datatype ServerInfo = ServerInfo(
    name: string, version: string, protocolVersion: string, instructions: string, capabilities: Option<Capabilities>)
  datatype ServerStatus = ServerStatus(
    observedGeneration: int, deploymentName: string, serviceName: string,
    address: Option<Address>, serverInfo: Option<ServerInfo>, handshakeRetryCount: int,
    replicas: int, readyReplicas: int, conditions: seq<Condition>)
  datatype MCPServer = MCPServer(objectMeta: Verbatim, spec: Spec, status: ServerStatus)
}

module V1Beta1 {
  import opened Wrappers
  import opened Conditions

  type Verbatim = string

  datatype ContainerImageSource = ContainerImageSource(ref: string, pullPolicy: string, imagePullSecrets: seq<Verbatim>)
  datatype Source = Source(stype: string, containerImage: Option<ContainerImageSource>)
  datatype StorageSource = StorageSource(
    stype: string, configMap: Option<Verbatim>, secret: Option<Verbatim>, emptyDir: Option<Verbatim>)
  datatype StorageMount = StorageMount(path: string, permissions: string, source: StorageSource)
  datatype ServerConfig = ServerConfig(
    port: int, arguments: seq<string>, env: seq<Verbatim>, envFrom: seq<Verbatim>, storage: seq<StorageMount>,
      path: string)
  datatype SecurityConfig = SecurityConfig(
    serviceAccountName: string, podSecurityContext: Option<Verbatim>, securityContext: Option<Verbatim>)
  datatype HealthConfig = HealthConfig(livenessProbe: Option<Verbatim>, readinessProbe: Option<Verbatim>)
  datatype RuntimeConfig = RuntimeConfig(
    replicas: Option<int>, security: SecurityConfig, resources: Option<Verbatim>, health: HealthConfig)
  datatype MCPConfig = MCPConfig(stateless: Option<bool>)
  datatype NetworkConfig = NetworkConfig(
    ingressFrom: seq<Verbatim>, egressTo: seq<Verbatim>, egressPorts: seq<Verbatim>, dnsEgressPeer: Option<Verbatim>)
  datatype TLSClientConfig = TLSClientConfig(enabled: bool, insecureSkipVerify: bool, caBundleSecret: Option<string>)
  datatype TransportConfig = TransportConfig(tls: Option<TLSClientConfig>)
  datatype WorkloadReference = WorkloadReference(name: string, kind: string)
  datatype GatewaySpec = GatewaySpec(provider: string, configRef: string)
  datatype Spec = Spec(
    extraLabels: map<string, string>, extraAnnotations: map<string, string>,
    workloadRef: Option<WorkloadReference>, serviceRef: Option<string>,
    source: Source, config: ServerConfig, runtime: RuntimeConfig, mcp: MCPConfig,
    network: Option<NetworkConfig>, transport: Option<TransportConfig>, gateway: Option<GatewaySpec>)
  datatype Address = Address(url: string)
  datatype Capabilities = Capabilities(tools: bool, resources: bool, prompts: bool, logging: bool, completions: bool)
  datatype ServerInfo = ServerInfo(
    name: string, version: string, protocolVersion: string, instructions: string, capabilities: Option<Capabilities>)
  datatype GatewayBindingStatus = GatewayBindingStatus(name: string, provider: string)
  datatype ServerStatus = ServerStatus(
    observedGeneration: int, deploymentName: string, serviceName: string, workloadName: string, workloadSummary: string,
    gatewayBinding: Option<GatewayBindingStatus>, address: Option<Address>, serverInfo: Option<ServerInfo>,
    replicas: int, readyReplicas: int, conditions: seq<Condition>)
  datatype MCPServer = MCPServer(objectMeta: Verbatim, spec: Spec, status: ServerStatus)
}

/** The Ready condition of v1alpha1 against the Available and Verified conditions of v1beta1. */
module ConditionConversion {
  import opened Wrappers
  import opened Conditions

  const HUB_PARTS := {Available, Verified}

  function SplitReady(ready: Condition): (r: (Condition, Condition))
    ensures r.0.ctype == Available && r.1.ctype == Verified
  {
    var g, t := ready.observedGeneration, ready.lastTransitionTime;
    if ready.reason == MCPEndpointUnavailable then
      (Condition(Available, StatusTrue, WorkloadAvailable, "Workload is running", g, t),
       Condition(Verified, ready.status, EndpointUnavailable, ready.message, g, t))
    else if ready.status == StatusTrue && ready.reason == WorkloadAvailable then
      (Condition(Available, StatusTrue, WorkloadAvailable, ready.message, g, t),
       Condition(Verified, StatusTrue, HandshakeVerified, "MCP handshake succeeded", g, t))
    else
      (Condition(Available, ready.status, ready.reason, ready.message, g, t),
       Condition(Verified, StatusUnknown, NotVerified, "Handshake has not been attempted", g, t))
  }

  function MergeReady(available: Option<Condition>, verified: Option<Condition>): (r: Condition)
    requires available.Some? || verified.Some?
    ensures r.ctype == Ready
  {
    if available.Some? && available.value.status != StatusTrue then
      available.value.(ctype := Ready)
    else if verified.Some? && verified.value.status == StatusFalse then
      verified.value.(ctype := Ready, reason := MCPEndpointUnavailable)
    else if verified.Some? && verified.value.status == StatusTrue then
      var src := if available.Some? then available.value else verified.value;
      src.(ctype := Ready, status := StatusTrue, reason := WorkloadAvailable)
    else if available.Some? then
      available.value.(ctype := Ready)
    else
      var v := verified.value;
      Condition(Ready, StatusUnknown,
                if v.reason == OtherReason("") then NotVerified else v.reason,
                if v.message == "" then "Workload availability unknown" else v.message,
                v.observedGeneration, v.lastTransitionTime)
  }

  function ToHub(cs: seq<Condition>): seq<Condition> {
    if cs == [] then []
    else HubPart(cs[0]) + ToHub(cs[1..])
  }

  function HubPart(c: Condition): seq<Condition> {
    if c.ctype == Ready then [SplitReady(c).0, SplitReady(c).1] else [c]
  }

  lemma Reassociate(a: seq<Condition>, b: seq<Condition>, c: seq<Condition>)
    ensures a + (b + c) == (a + b) + c
  {
  }

  /** The conditions of a list whose type is not dropped, in order. */
  function Without(cs: seq<Condition>, dropped: set<ConditionType>): seq<Condition> {
    if cs == [] then []
    else if cs[0].ctype in dropped then Without(cs[1..], dropped)
    else [cs[0]] + Without(cs[1..], dropped)
  }

  function ReadyPart(cs: seq<Condition>): seq<Condition> {
    var ready := Find(cs, Ready);
    if ready.None? then [] else [ready.value]
  }

  function FromHub(cs: seq<Condition>): seq<Condition> {
    var a, v := Find(cs, Available), Find(cs, Verified);
    Without(cs, HUB_PARTS) + if a.None? && v.None? then [] else [MergeReady(a, v)]
  }

  /** The list converters as the source runs them: one pass appending to the result. */
  method ConvertConditionsTo(conditions: seq<Condition>) returns (out: seq<Condition>)
    ensures out == ToHub(conditions)
  {
    out := [];
    for i := 0 to |conditions|
      invariant out + ToHub(conditions[i..]) == ToHub(conditions)
    {
      var c := conditions[i];
      assert conditions[i..][1..] == conditions[i + 1..];
      Reassociate(out, HubPart(c), ToHub(conditions[i + 1..]));
      if c.ctype == Ready {
        var (a, v) := SplitReady(c);
        out := out + [a, v];
      } else {
        out := out + [c];
      }
    }
  }

  method ConvertConditionsFrom(conditions: seq<Condition>) returns (out: seq<Condition>)
    ensures out == FromHub(conditions)
  {
    out := [];
    var available, verified := Find(conditions, Available), Find(conditions, Verified);
    for i := 0 to |conditions|
      invariant out + Without(conditions[i..], HUB_PARTS) == Without(conditions, HUB_PARTS)
    {
      assert conditions[i..][1..] == conditions[i + 1..];
      if conditions[i].ctype !in HUB_PARTS {
        out := out + [conditions[i]];
      }
    }
    if available.None? && verified.None? {
      return;
    }
    out := out + [MergeReady(available, verified)];
  }

  /** Ready conditions that survive the hub: a handshake reason must come with Ready=False. */
  predicate Recoverable(ready: Condition) {
    ready.reason == MCPEndpointUnavailable ==> ready.status == StatusFalse
  }

  function Rejoined(ready: Condition): Condition {
    var (a, v) := SplitReady(ready);
    MergeReady(Some(a), Some(v))
  }

  lemma MergeUndoesSplit(ready: Condition)
    requires ready.ctype == Ready
    ensures Rejoined(ready) == ready <==> Recoverable(ready)
  {
    if !Recoverable(ready) {
      assert Rejoined(ready).reason == WorkloadAvailable;
    }
  }

  ghost predicate NoHubParts(cs: seq<Condition>) {
    forall i :: 0 <= i < |cs| ==> cs[i].ctype !in HUB_PARTS
  }

  ghost predicate NoReady(cs: seq<Condition>) {
    forall i :: 0 <= i < |cs| ==> cs[i].ctype != Ready
  }

  lemma FindCons(c: Condition, cs: seq<Condition>, t: ConditionType)
    ensures Find([c] + cs, t) == if c.ctype == t then Some(c) else Find(cs, t)
  {
    assert ([c] + cs)[1..] == cs;
  }

  lemma WithoutCons(c: Condition, cs: seq<Condition>, dropped: set<ConditionType>)
    ensures Without([c] + cs, dropped) == if c.ctype in dropped then Without(cs, dropped)
      else [c] + Without(cs, dropped)
  {
    assert ([c] + cs)[1..] == cs;
  }

  /** The hub list of a non-empty list, one condition at a time. */
  lemma ToHubCons(cs: seq<Condition>)
    requires cs != []
    ensures cs[0].ctype != Ready ==> ToHub(cs) == [cs[0]] + ToHub(cs[1..])
    ensures cs[0].ctype == Ready ==> ToHub(cs) == [SplitReady(cs[0]).0] + ([SplitReady(cs[0]).1] + ToHub(cs[1..]))
  {
    if cs[0].ctype == Ready {
      PairCons(SplitReady(cs[0]).0, SplitReady(cs[0]).1, ToHub(cs[1..]));
    }
  }

  lemma PairCons(a: Condition, v: Condition, rest: seq<Condition>)
    ensures [a, v] + rest == [a] + ([v] + rest)
  {
  }

  lemma {:induction false} HubOthers(cs: seq<Condition>)
    requires NoHubParts(cs)
    ensures Without(ToHub(cs), HUB_PARTS) == Without(cs, {Ready})
  {
    if cs != [] {
      HubOthers(cs[1..]);
      ToHubCons(cs);
      var rest := ToHub(cs[1..]);
      if cs[0].ctype == Ready {
        var (a, v) := SplitReady(cs[0]);
        WithoutCons(a, [v] + rest, HUB_PARTS);
        WithoutCons(v, rest, HUB_PARTS);
      } else {
        WithoutCons(cs[0], rest, HUB_PARTS);
      }
    }
  }

  lemma {:induction false} HubParts(cs: seq<Condition>)
    requires NoHubParts(cs)
    ensures var ready := Find(cs, Ready);
      && Find(ToHub(cs), Available) == (if ready.None? then None else Some(SplitReady(ready.value).0))
      && Find(ToHub(cs), Verified) == (if ready.None? then None else Some(SplitReady(ready.value).1))
  {
    if cs != [] {
      HubParts(cs[1..]);
      ToHubCons(cs);
      var rest := ToHub(cs[1..]);
      if cs[0].ctype == Ready {
        var (a, v) := SplitReady(cs[0]);
        FindCons(a, [v] + rest, Available);
        FindCons(a, [v] + rest, Verified);
        FindCons(v, rest, Verified);
      } else {
        FindCons(cs[0], rest, Available);
        FindCons(cs[0], rest, Verified);
      }
    }
  }

  lemma {:induction false} WithoutTypes(cs: seq<Condition>, dropped: set<ConditionType>, i: nat)
    requires i < |Without(cs, dropped)|
    ensures Without(cs, dropped)[i].ctype !in dropped && Without(cs, dropped)[i] in cs
  {
    if cs[0].ctype in dropped {
      WithoutTypes(cs[1..], dropped, i);
    } else if i > 0 {
      WithoutTypes(cs[1..], dropped, i - 1);
    }
  }

  lemma {:induction false} WithoutKeeps(cs: seq<Condition>, dropped: set<ConditionType>, i: nat)
    requires i < |cs| && cs[i].ctype !in dropped
    ensures cs[i] in Without(cs, dropped)
  {
    if i > 0 {
      WithoutKeeps(cs[1..], dropped, i - 1);
    }
  }

  /** The v1alpha1 view of any hub list holds no hub-only condition. */
  lemma FromHubTypes(hub: seq<Condition>)
    ensures NoHubParts(FromHub(hub))
  {
    forall i | 0 <= i < |Without(hub, HUB_PARTS)| ensures Without(hub, HUB_PARTS)[i].ctype !in HUB_PARTS {
      WithoutTypes(hub, HUB_PARTS, i);
    }
  }

  /**
   A v1alpha1 list with one condition per type comes back from the hub as its other
   conditions in order followed by its own Ready condition exactly when it holds no
   Available or Verified condition and its Ready condition is recoverable.
   */
  lemma AlphaConditionsRoundTrip(cs: seq<Condition>)
    requires UniqueTypes(cs)
    ensures FromHub(ToHub(cs)) == Without(cs, {Ready}) + ReadyPart(cs)
      <==> NoHubParts(cs) && (Find(cs, Ready).Some? ==> Recoverable(Find(cs, Ready).value))
  {
    if !NoHubParts(cs) {
      var i :| 0 <= i < |cs| && cs[i].ctype in HUB_PARTS;
      WithoutKeeps(cs, {Ready}, i);
      FromHubTypes(ToHub(cs));
      assert cs[i] in Without(cs, {Ready}) + ReadyPart(cs);
    } else {
      HubOthers(cs);
      HubParts(cs);
      var ready := Find(cs, Ready);
      if ready.Some? {
        MergeUndoesSplit(ready.value);
        var others := Without(cs, {Ready});
        assert (others + [Rejoined(ready.value)])[|others|] == Rejoined(ready.value);
        assert (others + [ready.value])[|others|] == ready.value;
      }
    }
  }

  /** When the v1alpha1 view of a hub list is not reproduced by writing it back. */
  predicate LosesReason(available: Option<Condition>, verified: Option<Condition>) {
    var verifiedOpen := verified.None? || verified.value.status == StatusUnknown;
    || (available.Some? && available.value.reason == MCPEndpointUnavailable &&
        (available.value.status == StatusUnknown || (available.value.status == StatusTrue && verifiedOpen)))
    || (available.None? && verified.Some? && verified.value.status == StatusUnknown &&
        verified.value.reason == MCPEndpointUnavailable)
  }

  lemma {:induction false} WithoutKeepsUnique(cs: seq<Condition>, dropped: set<ConditionType>)
    requires UniqueTypes(cs)
    ensures UniqueTypes(Without(cs, dropped))
  {
    if cs != [] {
      WithoutKeepsUnique(cs[1..], dropped);
      var rest := Without(cs[1..], dropped);
      forall i | 0 <= i < |rest| ensures rest[i].ctype != cs[0].ctype {
        WithoutTypes(cs[1..], dropped, i);
      }
    }
  }

  lemma {:induction false} WithoutNone(cs: seq<Condition>, c: Condition)
    requires NoReady(cs) && c.ctype == Ready
    ensures Without(cs, {Ready}) == cs && Without(cs + [c], {Ready}) == cs
    ensures Find(cs, Ready) == None && Find(cs + [c], Ready) == Some(c)
  {
    if cs != [] {
      assert (cs + [c])[1..] == cs[1..] + [c];
      WithoutNone(cs[1..], c);
    }
  }

  /** The v1alpha1 view keeps one condition per type and puts Ready last. */
  lemma AlphaView(hub: seq<Condition>)
    requires UniqueTypes(hub) && NoReady(hub)
    ensures UniqueTypes(FromHub(hub))
    ensures Without(FromHub(hub), {Ready}) + ReadyPart(FromHub(hub)) == FromHub(hub)
    ensures var a, v := Find(hub, Available), Find(hub, Verified);
      Find(FromHub(hub), Ready) == if a.None? && v.None? then None else Some(MergeReady(a, v))
  {
    var others := Without(hub, HUB_PARTS);
    var a, v := Find(hub, Available), Find(hub, Verified);
    WithoutKeepsUnique(hub, HUB_PARTS);
    forall i | 0 <= i < |others| ensures others[i].ctype != Ready {
      WithoutTypes(hub, HUB_PARTS, i);
    }
    if a.None? && v.None? {
      WithoutNone(others, Condition(Ready, StatusTrue, Valid, "", 0, 0));
      assert FromHub(hub) == others;
    } else {
      WithoutNone(others, MergeReady(a, v));
    }
  }

  /**
   Reading a hub list as v1alpha1, writing it back and reading it again gives the same
   v1alpha1 list exactly when no handshake reason sits on a condition that is not False.
   */
  lemma HubViewStable(hub: seq<Condition>)
    requires UniqueTypes(hub) && NoReady(hub)
    ensures FromHub(ToHub(FromHub(hub))) == FromHub(hub)
      <==> !LosesReason(Find(hub, Available), Find(hub, Verified))
  {
    var a, v := Find(hub, Available), Find(hub, Verified);
    AlphaView(hub);
    FromHubTypes(hub);
    AlphaConditionsRoundTrip(FromHub(hub));
    if a.Some? || v.Some? {
      assert Recoverable(MergeReady(a, v)) <==> !LosesReason(a, v);
    }
  }

  // ---- What the hub sees ----

  /** The handshake failed, in v1alpha1's words. */
  predicate HandshakeReason(ready: Condition) {
    ready.reason == MCPEndpointUnavailable
  }

  predicate FullyReady(ready: Condition) {
    ready.status == StatusTrue && ready.reason == WorkloadAvailable
  }

  lemma SplitMeaning(ready: Condition)
    ensures var (a, v) := SplitReady(ready);
      && (a.status == StatusTrue <==> ready.status == StatusTrue || HandshakeReason(ready))
      && (!HandshakeReason(ready) ==>
            a.status == ready.status && a.reason == ready.reason && a.message == ready.message)
      && (HandshakeReason(ready) ==> a.reason == WorkloadAvailable)
      && (v.status == StatusTrue <==> FullyReady(ready) || (HandshakeReason(ready) && ready.status == StatusTrue))
      && (v.status == StatusFalse <==> HandshakeReason(ready) && ready.status == StatusFalse)
      && (v.reason == EndpointUnavailable <==> HandshakeReason(ready))
      && (v.reason == HandshakeVerified <==> FullyReady(ready))
      && (HandshakeReason(ready) ==> v.message == ready.message)
      && a.observedGeneration == ready.observedGeneration && v.observedGeneration == ready.observedGeneration
      && a.lastTransitionTime == ready.lastTransitionTime && v.lastTransitionTime == ready.lastTransitionTime
  {
  }

  /**
   What a stored v1alpha1 list means in the hub: Available is True exactly when Ready is True or
   only the handshake failed; Verified is True exactly when the server was fully ready (or a
   handshake reason came with True), False exactly when the handshake failed, and Unknown
   otherwise. Without Ready neither is there, and the other conditions pass through in order.
   */
  lemma HubMeaning(cs: seq<Condition>)
    requires UniqueTypes(cs) && NoHubParts(cs)
    ensures var hub, ready := ToHub(cs), Find(cs, Ready);
      && Without(hub, HUB_PARTS) == Without(cs, {Ready})
      && (ready.None? ==> Find(hub, Available).None? && Find(hub, Verified).None?)
      && (ready.Some? ==>
            var a, v, r := Find(hub, Available), Find(hub, Verified), ready.value;
            && a.Some? && v.Some?
            && (a.value.status == StatusTrue <==> r.status == StatusTrue || HandshakeReason(r))
            && (v.value.status == StatusTrue <==> FullyReady(r) || (HandshakeReason(r) && r.status == StatusTrue))
            && (v.value.status == StatusFalse <==> HandshakeReason(r) && r.status == StatusFalse))
  {
    HubOthers(cs);
    HubParts(cs);
    if Find(cs, Ready).Some? {
      SplitMeaning(Find(cs, Ready).value);
    }
  }

  /** The two statuses survive being stored as v1alpha1 and read back. */
  predicate StatusesKept(a: Condition, v: Condition) {
    var (a', v') := SplitReady(MergeReady(Some(a), Some(v)));
    a'.status == a.status && v'.status == v.status
  }

  /** The pairs one Ready condition can tell apart. */
  predicate Expressible(a: Condition, v: Condition) {
    if a.status == StatusTrue
    then v.status == StatusUnknown ==> a.reason != WorkloadAvailable && !HandshakeReason(a)
    else v.status == StatusUnknown && !HandshakeReason(a)
  }

  /**
   The hub side of the round trip: a list with both conditions keeps their statuses exactly when
   an available workload is not reported as unverified without a reason of its own, and an
   unavailable one is reported as unverified.
   */
  lemma HubStatusRoundTrip(hub: seq<Condition>)
    requires UniqueTypes(hub) && NoReady(hub) && Find(hub, Available).Some? && Find(hub, Verified).Some?
    ensures var back := ToHub(FromHub(hub));
      var a, v := Find(hub, Available).value, Find(hub, Verified).value;
      && Find(back, Available).Some? && Find(back, Verified).Some?
      && (Find(back, Available).value.status == a.status && Find(back, Verified).value.status == v.status
          <==> Expressible(a, v))
  {
    var a, v := Find(hub, Available).value, Find(hub, Verified).value;
    AlphaView(hub);
    FromHubTypes(hub);
    HubParts(FromHub(hub));
    StatusesKeptExactly(a, v);
  }

  lemma StatusesKeptExactly(a: Condition, v: Condition)
    ensures StatusesKept(a, v) <==> Expressible(a, v)
  {
  }
}

/** Whole-object conversion: every field of ConvertTo and ConvertFrom. */
module Conversion {
  import opened Wrappers
  import opened Conditions
  import opened ConditionConversion
  import A = V1Alpha1
  import B = V1Beta1

  function SourceTo(s: A.Source): B.Source {
    B.Source(s.stype, match s.containerImage
                      case None => None
                      case Some(i) => Some(B.ContainerImageSource(i.ref, i.pullPolicy, i.imagePullSecrets)))
  }

  function SourceFrom(s: B.Source): A.Source {
    A.Source(s.stype, match s.containerImage
                      case None => None
                      case Some(i) => Some(A.ContainerImageSource(i.ref, i.pullPolicy, i.imagePullSecrets)))
  }

  function StorageMountTo(m: A.StorageMount): B.StorageMount {
    B.StorageMount(m.path, m.permissions,
                   B.StorageSource(m.source.stype, m.source.configMap, m.source.secret, m.source.emptyDir))
  }

  function StorageMountFrom(m: B.StorageMount): A.StorageMount {
    A.StorageMount(m.path, m.permissions,
                   A.StorageSource(m.source.stype, m.source.configMap, m.source.secret, m.source.emptyDir))
  }

  function ServerConfigTo(c: A.ServerConfig): B.ServerConfig {
    B.ServerConfig(c.port, c.arguments, c.env, c.envFrom,
      seq(|c.storage|, i requires 0 <= i < |c.storage| => StorageMountTo(c.storage[i])), c.path)
  }

  function ServerConfigFrom(c: B.ServerConfig): A.ServerConfig {
    A.ServerConfig(c.port, c.arguments, c.env, c.envFrom,
      seq(|c.storage|, i requires 0 <= i < |c.storage| => StorageMountFrom(c.storage[i])), c.path)
  }

  function RuntimeTo(r: A.RuntimeConfig): B.RuntimeConfig {
    B.RuntimeConfig(r.replicas,
                    B.SecurityConfig(r.security.serviceAccountName, r.security.podSecurityContext,
                      r.security.securityContext),
                    r.resources, B.HealthConfig(r.health.livenessProbe, r.health.readinessProbe))
  }

  function RuntimeFrom(r: B.RuntimeConfig): A.RuntimeConfig {
    A.RuntimeConfig(r.replicas,
                    A.SecurityConfig(r.security.serviceAccountName, r.security.podSecurityContext,
                      r.security.securityContext),
                    r.resources, A.HealthConfig(r.health.livenessProbe, r.health.readinessProbe))
  }

  function NetworkTo(n: Option<A.NetworkConfig>): Option<B.NetworkConfig> {
    match n case None => None
            case Some(c) => Some(B.NetworkConfig(c.ingressFrom, c.egressTo, c.egressPorts, c.dnsEgressPeer))
  }

  function NetworkFrom(n: Option<B.NetworkConfig>): Option<A.NetworkConfig> {
    match n case None => None
            case Some(c) => Some(A.NetworkConfig(c.ingressFrom, c.egressTo, c.egressPorts, c.dnsEgressPeer))
  }

  function TransportTo(t: Option<A.TransportConfig>): Option<B.TransportConfig> {
    match t
    case None => None
    case Some(c) => Some(B.TransportConfig(
      match c.tls
      case None => None
      case Some(s) => Some(B.TLSClientConfig(s.enabled, s.insecureSkipVerify, s.caBundleSecret))))
  }

  function TransportFrom(t: Option<B.TransportConfig>): Option<A.TransportConfig> {
    match t
    case None => None
    case Some(c) => Some(A.TransportConfig(
      match c.tls
      case None => None
      case Some(s) => Some(A.TLSClientConfig(s.enabled, s.insecureSkipVerify, s.caBundleSecret))))
  }

  function ServerInfoTo(i: Option<A.ServerInfo>): Option<B.ServerInfo> {
    match i
    case None => None
    case Some(s) => Some(B.ServerInfo(s.name, s.version, s.protocolVersion, s.instructions,
      match s.capabilities
      case None => None
      case Some(c) => Some(B.Capabilities(c.tools, c.resources, c.prompts, c.logging, c.completions))))
  }

  function ServerInfoFrom(i: Option<B.ServerInfo>): Option<A.ServerInfo> {
    match i
    case None => None
    case Some(s) => Some(A.ServerInfo(s.name, s.version, s.protocolVersion, s.instructions,
      match s.capabilities
      case None => None
      case Some(c) => Some(A.Capabilities(c.tools, c.resources, c.prompts, c.logging, c.completions))))
  }

  /** ConvertTo writes the fields both versions share and leaves the others of dst alone. */
  function ConvertTo(src: A.MCPServer, dst: B.MCPServer): B.MCPServer {
    B.MCPServer(
      src.objectMeta,
      dst.spec.(extraLabels := src.spec.extraLabels, extraAnnotations := src.spec.extraAnnotations,
                source := SourceTo(src.spec.source), config := ServerConfigTo(src.spec.config),
                runtime := RuntimeTo(src.spec.runtime), mcp := B.MCPConfig(src.spec.mcp.stateless),
                network := NetworkTo(src.spec.network), transport := TransportTo(src.spec.transport)),
      dst.status.(observedGeneration := src.status.observedGeneration, deploymentName := src.status.deploymentName,
                  serviceName := src.status.serviceName,
                  address := (match src.status.address case None => None case Some(a) => Some(B.Address(a.url))),
                  serverInfo := ServerInfoTo(src.status.serverInfo),
                  replicas := src.status.replicas, readyReplicas := src.status.readyReplicas,
                  conditions := ToHub(src.status.conditions)))
  }

  function ConvertFrom(src: B.MCPServer, dst: A.MCPServer): A.MCPServer {
    A.MCPServer(
      src.objectMeta,
      A.Spec(src.spec.extraLabels, src.spec.extraAnnotations, SourceFrom(src.spec.source),
             ServerConfigFrom(src.spec.config), RuntimeFrom(src.spec.runtime), A.MCPConfig(src.spec.mcp.stateless),
             NetworkFrom(src.spec.network), TransportFrom(src.spec.transport)),
      dst.status.(observedGeneration := src.status.observedGeneration, deploymentName := src.status.deploymentName,
                  serviceName := src.status.serviceName,
                  address := (match src.status.address case None => None case Some(a) => Some(A.Address(a.url))),
                  serverInfo := ServerInfoFrom(src.status.serverInfo),
                  replicas := src.status.replicas, readyReplicas := src.status.readyReplicas,
                  conditions := FromHub(src.status.conditions)))
  }

  lemma StorageRoundTrip(c: A.ServerConfig)
    ensures ServerConfigFrom(ServerConfigTo(c)) == c
  {
    var hub := ServerConfigTo(c);
    forall i | 0 <= i < |c.storage| ensures StorageMountFrom(hub.storage[i]) == c.storage[i] {
    }
    assert ServerConfigFrom(hub).storage == c.storage;
  }

  /**
   An object stored through the hub is read back with every spec field and every status
   field except the retry count, which is whatever the destination held. The condition
   list is covered field by field under exactly the condition of AlphaConditionsRoundTrip.
   */
  lemma AlphaRoundTrip(src: A.MCPServer, hub0: B.MCPServer, dst0: A.MCPServer)
    requires UniqueTypes(src.status.conditions)
    ensures var back := ConvertFrom(ConvertTo(src, hub0), dst0);
      && back == src.(status := src.status.(handshakeRetryCount := dst0.status.handshakeRetryCount,
                                            conditions := back.status.conditions))
      && (back.status.conditions == Without(src.status.conditions, {Ready}) + ReadyPart(src.status.conditions)
          <==> NoHubParts(src.status.conditions)
               && (Find(src.status.conditions, Ready).Some? ==> Recoverable(Find(src.status.conditions, Ready).value)))
  {
    SpecRoundTrip(src, hub0, dst0);
    AlphaConditionsRoundTrip(src.status.conditions);
  }

  lemma PartsRoundTrip(
    source: A.Source, runtime: A.RuntimeConfig, network: Option<A.NetworkConfig>, transport: Option<A.TransportConfig>)
    ensures SourceFrom(SourceTo(source)) == source
    ensures RuntimeFrom(RuntimeTo(runtime)) == runtime
    ensures NetworkFrom(NetworkTo(network)) == network
    ensures TransportFrom(TransportTo(transport)) == transport
  {
  }

  lemma SpecRoundTrip(src: A.MCPServer, hub0: B.MCPServer, dst0: A.MCPServer)
    ensures ConvertFrom(ConvertTo(src, hub0), dst0).spec == src.spec
    ensures ServerInfoFrom(ServerInfoTo(src.status.serverInfo)) == src.status.serverInfo
  {
    StorageRoundTrip(src.spec.config);
    PartsRoundTrip(src.spec.source, src.spec.runtime, src.spec.network, src.spec.transport);
  }

  // ---- Field by field: the two versions hold the same values ----

  predicate SameSource(a: A.Source, b: B.Source) {
    && a.stype == b.stype && (a.containerImage.Some? <==> b.containerImage.Some?)
    && (a.containerImage.Some? ==>
          var x, y := a.containerImage.value, b.containerImage.value;
          x.ref == y.ref && x.pullPolicy == y.pullPolicy && x.imagePullSecrets == y.imagePullSecrets)
  }

  predicate SameMount(a: A.StorageMount, b: B.StorageMount) {
    && a.path == b.path && a.permissions == b.permissions && a.source.stype == b.source.stype
    && a.source.configMap == b.source.configMap && a.source.secret == b.source.secret
    && a.source.emptyDir == b.source.emptyDir
  }

  predicate SameConfig(a: A.ServerConfig, b: B.ServerConfig) {
    && a.port == b.port && a.arguments == b.arguments && a.env == b.env && a.envFrom == b.envFrom && a.path == b.path
    && |a.storage| == |b.storage| && forall i :: 0 <= i < |a.storage| ==> SameMount(a.storage[i], b.storage[i])
  }

  predicate SameRuntime(a: A.RuntimeConfig, b: B.RuntimeConfig) {
    && a.replicas == b.replicas && a.resources == b.resources
    && a.security.serviceAccountName == b.security.serviceAccountName
    && a.security.podSecurityContext == b.security.podSecurityContext
    && a.security.securityContext == b.security.securityContext
    && a.health.livenessProbe == b.health.livenessProbe && a.health.readinessProbe == b.health.readinessProbe
  }

  predicate SameNetwork(a: Option<A.NetworkConfig>, b: Option<B.NetworkConfig>) {
    && (a.Some? <==> b.Some?)
    && (a.Some? ==>
          && a.value.ingressFrom == b.value.ingressFrom && a.value.egressTo == b.value.egressTo
          && a.value.egressPorts == b.value.egressPorts && a.value.dnsEgressPeer == b.value.dnsEgressPeer)
  }

  predicate SameTransport(a: Option<A.TransportConfig>, b: Option<B.TransportConfig>) {
    && (a.Some? <==> b.Some?)
    && (a.Some? ==>
          var x, y := a.value.tls, b.value.tls;
          && (x.Some? <==> y.Some?)
          && (x.Some? ==>
                && x.value.enabled == y.value.enabled && x.value.insecureSkipVerify == y.value.insecureSkipVerify
                && x.value.caBundleSecret == y.value.caBundleSecret))
  }

  predicate SameCapabilities(a: Option<A.Capabilities>, b: Option<B.Capabilities>) {
    && (a.Some? <==> b.Some?)
    && (a.Some? ==>
          && a.value.tools == b.value.tools && a.value.resources == b.value.resources
          && a.value.prompts == b.value.prompts && a.value.logging == b.value.logging
          && a.value.completions == b.value.completions)
  }

  predicate SameInfo(a: Option<A.ServerInfo>, b: Option<B.ServerInfo>) {
    && (a.Some? <==> b.Some?)
    && (a.Some? ==>
          && a.value.name == b.value.name && a.value.version == b.value.version
          && a.value.protocolVersion == b.value.protocolVersion && a.value.instructions == b.value.instructions
          && SameCapabilities(a.value.capabilities, b.value.capabilities))
  }

  predicate SameSpec(a: A.Spec, b: B.Spec) {
    && a.extraLabels == b.extraLabels && a.extraAnnotations == b.extraAnnotations
    && SameSource(a.source, b.source) && SameConfig(a.config, b.config) && SameRuntime(a.runtime, b.runtime)
    && a.mcp.stateless == b.mcp.stateless
    && SameNetwork(a.network, b.network) && SameTransport(a.transport, b.transport)
  }

  predicate SameStatus(a: A.ServerStatus, b: B.ServerStatus) {
    && a.observedGeneration == b.observedGeneration && a.deploymentName == b.deploymentName
    && a.serviceName == b.serviceName && a.replicas == b.replicas && a.readyReplicas == b.readyReplicas
    && (a.address.Some? <==> b.address.Some?) && (a.address.Some? ==> a.address.value.url == b.address.value.url)
    && SameInfo(a.serverInfo, b.serverInfo)
  }

  /** Every shared field of the hub object holds the source's value; the hub's own fields are left alone. */
  lemma ConvertToCopies(src: A.MCPServer, dst: B.MCPServer)
    ensures var hub := ConvertTo(src, dst);
      && hub.objectMeta == src.objectMeta && SameSpec(src.spec, hub.spec) && SameStatus(src.status, hub.status)
      && hub.spec.workloadRef == dst.spec.workloadRef && hub.spec.serviceRef == dst.spec.serviceRef
      && hub.spec.gateway == dst.spec.gateway && hub.status.gatewayBinding == dst.status.gatewayBinding
      && hub.status.workloadName == dst.status.workloadName
      && hub.status.workloadSummary == dst.status.workloadSummary
  {
    PartsCopied(src.spec.source, src.spec.config, src.spec.runtime, src.status.serverInfo);
  }

  lemma PartsCopied(source: A.Source, config: A.ServerConfig, runtime: A.RuntimeConfig, info: Option<A.ServerInfo>)
    ensures SameSource(source, SourceTo(source)) && SameConfig(config, ServerConfigTo(config))
    ensures SameRuntime(runtime, RuntimeTo(runtime)) && SameInfo(info, ServerInfoTo(info))
  {
  }

  /** And back: every shared field holds the hub's value, the retry count is the destination's. */
  lemma ConvertFromCopies(src: B.MCPServer, dst: A.MCPServer)
    ensures var alpha := ConvertFrom(src, dst);
      && alpha.objectMeta == src.objectMeta && SameSpec(alpha.spec, src.spec) && SameStatus(alpha.status, src.status)
      && alpha.status.handshakeRetryCount == dst.status.handshakeRetryCount
  {
    PartsCopiedBack(src.spec.source, src.spec.config, src.spec.runtime, src.status.serverInfo);
  }

  lemma PartsCopiedBack(source: B.Source, config: B.ServerConfig, runtime: B.RuntimeConfig, info: Option<B.ServerInfo>)
    ensures SameSource(SourceFrom(source), source) && SameConfig(ServerConfigFrom(config), config)
    ensures SameRuntime(RuntimeFrom(runtime), runtime) && SameInfo(ServerInfoFrom(info), info)
  {
  }
}
