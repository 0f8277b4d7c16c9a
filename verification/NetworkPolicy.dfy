/**
 Ingress peers, their validation and the sources they admit. A policy's meaning is the
 NetworkPolicy one: peers of a rule are OR'ed, the two selectors of a peer are AND'ed.
 */
module NetworkPeers {
  import opened Wrappers
  import opened Cidr

  /** Label keys; every namespace carries its own name under kubernetes.io/metadata.name. */
  datatype LabelKey = NamespaceName | Key(text: string)
  type Labels = map<LabelKey, string>

  datatype Operator = In | NotIn | Exists | DoesNotExist
  datatype Requirement = Requirement(key: LabelKey, op: Operator, values: seq<string>)
  datatype LabelSelector = LabelSelector(matchLabels: Labels, matchExpressions: seq<Requirement>)
  datatype IPBlock = IPBlock(cidr: string, except: seq<string>)
  datatype Peer = Peer(podSelector: Option<LabelSelector>, namespaceSelector: Option<LabelSelector>,
    ipBlock: Option<IPBlock>)

  /** net.ParseCIDR, given as the partial function from text to masked networks. */
  type CidrParser = string -> Option<IPNet>

  ghost predicate ParsesMasked(parse: CidrParser) {
    forall s :: parse(s).Some? ==> Masked(parse(s).value)
  }

  // ---- What a peer admits ----

  predicate Satisfies(r: Requirement, labels: Labels) {
    match r.op
    case In => r.key in labels && labels[r.key] in r.values
    case NotIn => r.key !in labels || labels[r.key] !in r.values
    case Exists => r.key in labels
    case DoesNotExist => r.key !in labels
  }

  ghost predicate Matches(s: LabelSelector, labels: Labels) {
    && (forall k :: k in s.matchLabels ==> k in labels && labels[k] == s.matchLabels[k])
    && (forall i :: 0 <= i < |s.matchExpressions| ==> Satisfies(s.matchExpressions[i], labels))
  }

  datatype Source =
    | Address(bits: Bits)
    | Pod(namespace: string, namespaceLabels: Labels, podLabels: Labels)

  /** The sources that can exist: a namespace is labelled with its own name. */
  ghost predicate Possible(src: Source) {
    src.Pod? ==> NamespaceName in src.namespaceLabels && src.namespaceLabels[NamespaceName] == src.namespace
  }

  ghost predicate PeerAdmits(peer: Peer, policyNamespace: string, parse: CidrParser, src: Source)
    requires ParsesMasked(parse)
  {
    match src
    case Address(bits) =>
      && peer.ipBlock.Some?
      && parse(peer.ipBlock.value.cidr).Some?
      && Member(bits, parse(peer.ipBlock.value.cidr).value)
      && forall e :: e in peer.ipBlock.value.except && parse(e).Some? ==> !Member(bits, parse(e).value)
    case Pod(ns, nsLabels, podLabels) =>
      && peer.ipBlock.None?
      && (peer.podSelector.Some? || peer.namespaceSelector.Some?)
      && (if peer.namespaceSelector.Some? then Matches(peer.namespaceSelector.value, nsLabels)
        else ns == policyNamespace)
      && (peer.podSelector.Some? ==> Matches(peer.podSelector.value, podLabels))
  }

  /** The peer admits every possible source of its own kind: all addresses of its width, or all pods. */
  ghost predicate AdmitsEvery(peer: Peer, policyNamespace: string, parse: CidrParser)
    requires ParsesMasked(parse)
  {
    if peer.ipBlock.Some? then
      parse(peer.ipBlock.value.cidr).Some? &&
      forall a: Bits :: |a| == |parse(peer.ipBlock.value.cidr).value.ip| ==>
        PeerAdmits(peer, policyNamespace, parse, Address(a))
    else
      forall src: Source :: src.Pod? && Possible(src) ==> PeerAdmits(peer, policyNamespace, parse, src)
  }

  // ---- The checks of the source ----

  datatype PeerError = NoSelector | BlockCombined | EmptyCidr | BadCidr | BadExcept(index: nat)
    | ExceptOutside(index: nat)

  predicate ExceptValid(parse: CidrParser, parent: IPNet, e: string) {
    parse(e).Some? && ExceptAccepted(parent, parse(e).value)
  }

  predicate PeerValid(peer: Peer, parse: CidrParser) {
    && (peer.podSelector.Some? || peer.namespaceSelector.Some? || peer.ipBlock.Some?)
    && (peer.ipBlock.Some? ==>
        var block := peer.ipBlock.value;
        && peer.podSelector.None? && peer.namespaceSelector.None?
        && block.cidr != "" && parse(block.cidr).Some?
        && forall i :: 0 <= i < |block.except| ==> ExceptValid(parse, parse(block.cidr).value, block.except[i]))
  }

  /** The rule a peer violates first, in the order the rules are checked. */
  predicate Violates(peer: Peer, parse: CidrParser, err: PeerError) {
    match err
    case NoSelector => peer.podSelector.None? && peer.namespaceSelector.None? && peer.ipBlock.None?
    case BlockCombined => peer.ipBlock.Some? && (peer.podSelector.Some? || peer.namespaceSelector.Some?)
    case EmptyCidr => OnlyBlock(peer) && peer.ipBlock.value.cidr == ""
    case BadCidr => OnlyBlock(peer) && peer.ipBlock.value.cidr != "" && parse(peer.ipBlock.value.cidr).None?
    case BadExcept(index) => ExceptsValidUpTo(peer, parse, index) && parse(peer.ipBlock.value.except[index]).None?
    case ExceptOutside(index) =>
      && ExceptsValidUpTo(peer, parse, index) && parse(peer.ipBlock.value.except[index]).Some?
      && !ExceptAccepted(parse(peer.ipBlock.value.cidr).value, parse(peer.ipBlock.value.except[index]).value)
  }

  predicate OnlyBlock(peer: Peer) {
    peer.ipBlock.Some? && peer.podSelector.None? && peer.namespaceSelector.None?
  }

  predicate ExceptsValidUpTo(peer: Peer, parse: CidrParser, index: nat) {
    && OnlyBlock(peer)
    && var block := peer.ipBlock.value;
       && block.cidr != "" && parse(block.cidr).Some? && index < |block.except|
       && forall i :: 0 <= i < index ==> ExceptValid(parse, parse(block.cidr).value, block.except[i])
  }

  /** validateNetworkPolicyPeerAtPath: the first violated rule, scanning except entries in order. */
  method ValidatePeer(peer: Peer, parse: CidrParser) returns (err: Option<PeerError>)
    ensures err.None? <==> PeerValid(peer, parse)
    ensures err.Some? ==> Violates(peer, parse, err.value)
  {
    if peer.podSelector.None? && peer.namespaceSelector.None? && peer.ipBlock.None? {
      return Some(NoSelector);
    }
    if peer.ipBlock.Some? {
      var block := peer.ipBlock.value;
      if peer.podSelector.Some? || peer.namespaceSelector.Some? {
        return Some(BlockCombined);
      }
      if block.cidr == "" {
        return Some(EmptyCidr);
      }
      var parent := parse(block.cidr);
      if parent.None? {
        return Some(BadCidr);
      }
      for j := 0 to |block.except|
        invariant forall i :: 0 <= i < j ==> ExceptValid(parse, parent.value, block.except[i])
      {
        var except := parse(block.except[j]);
        if except.None? {
          return Some(BadExcept(j));
        }
        if !ExceptAccepted(parent.value, except.value) {
          return Some(ExceptOutside(j));
        }
      }
    }
    return None;
  }

  predicate IsEmptySelector(s: LabelSelector) {
    |s.matchLabels| == 0 && |s.matchExpressions| == 0
  }

  predicate IsUniversalCIDR(cidr: string, parse: CidrParser) {
    parse(cidr).Some? && parse(cidr).value.ones == 0
  }

  predicate PeerRestrictsSource(peer: Peer, parse: CidrParser) {
    if peer.ipBlock.Some? then
      |peer.ipBlock.value.except| > 0 || !IsUniversalCIDR(peer.ipBlock.value.cidr, parse)
    else if peer.podSelector.Some? && !IsEmptySelector(peer.podSelector.value) then true
    else if peer.namespaceSelector.Some? && !IsEmptySelector(peer.namespaceSelector.value) then true
    else peer.podSelector.Some? && peer.namespaceSelector.None?
  }

  predicate PeerAdmitsAllSources(peer: Peer, parse: CidrParser) {
    !PeerRestrictsSource(peer, parse)
  }

  // ---- Selectors always leave something out, except one form ----

  /** The API server refuses In and NotIn without values. */
  ghost predicate WellFormed(s: LabelSelector) {
    forall i :: 0 <= i < |s.matchExpressions| ==>
      (s.matchExpressions[i].op == In || s.matchExpressions[i].op == NotIn) ==> |s.matchExpressions[i].values| > 0
  }

  /** Requiring the name label to exist is the one requirement every namespace meets. */
  predicate OnlyAsksForNameLabel(s: LabelSelector) {
    && |s.matchLabels| == 0
    && forall i :: 0 <= i < |s.matchExpressions| ==>
         s.matchExpressions[i].key == NamespaceName && s.matchExpressions[i].op == Exists
  }

  lemma {:induction false} FreshName(values: seq<string>) returns (s: string)
    ensures s !in values
    ensures forall v :: v in values ==> |v| < |s|
  {
    if values == [] {
      s := "";
    } else {
      var t := FreshName(values[1..]);
      s := seq(|t| + |values[0]| + 1, i => 'a');
      forall v | v in values ensures |v| < |s| {
        assert v == values[0] || v in values[1..];
      }
    }
  }

  lemma UnmatchedPodLabels(s: LabelSelector) returns (labels: Labels)
    requires WellFormed(s) && !IsEmptySelector(s)
    ensures !Matches(s, labels)
  {
    labels := map[];
    if |s.matchLabels| == 0 {
      var r := s.matchExpressions[0];
      match r.op
      case In =>
      case Exists =>
      case NotIn => labels := map[r.key := r.values[0]];
      case DoesNotExist => labels := map[r.key := ""];
      assert !Satisfies(r, labels);
    } else {
      assert s.matchLabels.Keys != {};
      var k :| k in s.matchLabels;
    }
  }

  lemma UnsatisfiedByNamespace(r: Requirement) returns (labels: Labels)
    requires (r.op == In || r.op == NotIn) ==> |r.values| > 0
    requires !(r.key == NamespaceName && r.op == Exists)
    ensures NamespaceName in labels && !Satisfies(r, labels)
  {
    labels := map[NamespaceName := ""];
    match r.op
    case In =>
      var unused := FreshName(r.values);
      labels := map[NamespaceName := unused];
    case Exists =>
    case NotIn => labels := labels[r.key := r.values[0]];
    case DoesNotExist => labels := labels[r.key := ""];
  }

  lemma UnmatchedNamespaceLabels(s: LabelSelector) returns (labels: Labels)
    requires WellFormed(s) && !OnlyAsksForNameLabel(s)
    ensures NamespaceName in labels && !Matches(s, labels)
  {
    if |s.matchLabels| == 0 {
      var i :| 0 <= i < |s.matchExpressions| &&
        !(s.matchExpressions[i].key == NamespaceName && s.matchExpressions[i].op == Exists);
      labels := UnsatisfiedByNamespace(s.matchExpressions[i]);
      assert !Satisfies(s.matchExpressions[i], labels);
    } else {
      assert s.matchLabels.Keys != {};
      var k :| k in s.matchLabels;
      labels := map[NamespaceName := if k == NamespaceName then s.matchLabels[k] + "x" else ""];
    }
  }

  /** A namespace selector no possible namespace fails, although it is not empty. */
  predicate NameLabelOnly(peer: Peer) {
    && peer.ipBlock.None? && peer.namespaceSelector.Some?
    && OnlyAsksForNameLabel(peer.namespaceSelector.value) && !IsEmptySelector(peer.namespaceSelector.value)
    && (peer.podSelector.Some? ==> IsEmptySelector(peer.podSelector.value))
  }

  lemma EmptyMatchesAll(s: LabelSelector, labels: Labels)
    requires IsEmptySelector(s)
    ensures Matches(s, labels)
  {
    assert s.matchLabels.Keys == {};
  }

  lemma BlockAdmitsEvery(peer: Peer, ns: string, parse: CidrParser)
    requires ParsesMasked(parse) && PeerValid(peer, parse) && peer.ipBlock.Some?
    ensures AdmitsEvery(peer, ns, parse) <==> PeerAdmitsAllSources(peer, parse)
  {
    var block := peer.ipBlock.value;
    var net := parse(block.cidr).value;
    if |block.except| > 0 {
      var hole := parse(block.except[0]).value;
      assert ExceptValid(parse, net, block.except[0]);
      assert Member(hole.ip, hole);
      assert !PeerAdmits(peer, ns, parse, Address(hole.ip));
    } else if net.ones > 0 {
      var outside := net.ip[0 := !net.ip[0]];
      assert outside[..net.ones][0] != net.ip[..net.ones][0];
      assert !PeerAdmits(peer, ns, parse, Address(outside));
    } else {
      forall a: Bits | |a| == |net.ip| ensures PeerAdmits(peer, ns, parse, Address(a)) {
        assert a[..0] == net.ip[..0];
      }
    }
  }

  lemma SelectorsAdmitEvery(peer: Peer, ns: string, parse: CidrParser)
    requires ParsesMasked(parse) && PeerValid(peer, parse) && peer.ipBlock.None?
    requires peer.podSelector.Some? ==> WellFormed(peer.podSelector.value)
    requires peer.namespaceSelector.Some? ==> WellFormed(peer.namespaceSelector.value)
    ensures AdmitsEvery(peer, ns, parse) <==> PeerAdmitsAllSources(peer, parse) || NameLabelOnly(peer)
  {
    if peer.podSelector.Some? && !IsEmptySelector(peer.podSelector.value) {
      var labels := UnmatchedPodLabels(peer.podSelector.value);
      var src := Pod(ns, map[NamespaceName := ns], labels);
      assert Possible(src) && !PeerAdmits(peer, ns, parse, src);
    } else if peer.namespaceSelector.None? {
      var src := Pod(ns + "x", map[NamespaceName := ns + "x"], map[]);
      assert Possible(src) && !PeerAdmits(peer, ns, parse, src);
    } else if !OnlyAsksForNameLabel(peer.namespaceSelector.value) {
      var labels := UnmatchedNamespaceLabels(peer.namespaceSelector.value);
      var src := Pod(labels[NamespaceName], labels, map[]);
      assert Possible(src) && !PeerAdmits(peer, ns, parse, src);
    } else {
      forall src: Source | src.Pod? && Possible(src) ensures PeerAdmits(peer, ns, parse, src) {
        assert peer.namespaceSelector.value.matchLabels.Keys == {};
        if peer.podSelector.Some? {
          EmptyMatchesAll(peer.podSelector.value, src.podLabels);
        }
      }
    }
  }

  /**
   For every peer that passes validation, the syntactic check agrees with what the peer
   admits, apart from namespace selectors that only ask for the name label to exist.
   */
  lemma AdmitsAllSourcesExact(peer: Peer, ns: string, parse: CidrParser)
    requires ParsesMasked(parse) && PeerValid(peer, parse)
    requires peer.podSelector.Some? ==> WellFormed(peer.podSelector.value)
    requires peer.namespaceSelector.Some? ==> WellFormed(peer.namespaceSelector.value)
    ensures AdmitsEvery(peer, ns, parse) <==> PeerAdmitsAllSources(peer, parse) || NameLabelOnly(peer)
  {
    if peer.ipBlock.Some? {
      BlockAdmitsEvery(peer, ns, parse);
    } else {
      SelectorsAdmitEvery(peer, ns, parse);
    }
  }

  /** The disagreement is real: this valid peer admits every pod and counts as restricting. */
  lemma NameLabelPeerMisreported(ns: string, parse: CidrParser)
    requires ParsesMasked(parse)
    ensures var peer := Peer(None, Some(LabelSelector(map[], [Requirement(NamespaceName, Exists, [])])), None);
      PeerValid(peer, parse) && AdmitsEvery(peer, ns, parse) && PeerRestrictsSource(peer, parse)
  {
    var peer := Peer(None, Some(LabelSelector(map[], [Requirement(NamespaceName, Exists, [])])), None);
    AdmitsAllSourcesExact(peer, ns, parse);
  }

  /** Every exception of an accepted block lies within the block. */
  lemma ValidExceptInside(peer: Peer, parse: CidrParser, i: nat)
    requires ParsesMasked(parse) && PeerValid(peer, parse) && peer.ipBlock.Some? && i < |peer.ipBlock.value.except|
    ensures parse(peer.ipBlock.value.except[i]).Some?
    ensures Subset(parse(peer.ipBlock.value.except[i]).value, parse(peer.ipBlock.value.cidr).value)
  {
    var block := peer.ipBlock.value;
    assert ExceptValid(parse, parse(block.cidr).value, block.except[i]);
    ExceptAcceptedExact(parse(block.cidr).value, parse(block.except[i]).value);
  }
}

/** The ingress half of the operand NetworkPolicy under the two default postures. */
module IngressPolicy {
  import opened Wrappers
  import opened Cidr
  import opened NetworkPeers
  import opened GatewayProvider

  datatype Posture = Open | Restricted
  datatype Protocol = TCP | UDP | SCTP
  datatype Port = Port(protocol: Protocol, port: int)
  datatype Rule = Rule(ports: seq<Port>, from: seq<Peer>)
  datatype Policy = Policy(namespace: string, ingress: seq<Rule>)

  datatype ConfigKey = GatewayNamespaceKey | ExtensionNamespaceKey | OtherKey(text: string)
  datatype Gateway = Gateway(provider: Provider, configRef: string)
  datatype Server = Server(namespace: string, port: int, ingressFrom: seq<Peer>, gateway: Option<Gateway>)
  datatype Identity = Identity(posture: Posture, namespace: string, podLabels: Labels)

  /** One uncached read of the gateway ConfigMap. */
  datatype ConfigRead = Found(data: map<ConfigKey, string>) | NotFound | ReadError

  datatype Outcome<T> = Ok(value: T) | Failed

  function NamespaceNamePeer(ns: string): Peer {
    Peer(None, Some(LabelSelector(map[NamespaceName := ns], [])), None)
  }

  function OperatorIngressPeers(op: Identity, server: Server): seq<Peer> {
    if op.posture != Restricted then []
    else if |server.ingressFrom| > 0 then []
    else if op.namespace == "" || |op.podLabels| == 0 then []
    else [NamespaceNamePeer(op.namespace).(podSelector := Some(LabelSelector(op.podLabels, [])))]
  }

  /** resolveGatewaySourceNamespace; trim is strings.TrimSpace. */
  function ResolveGatewayNamespace(
    gateway: Gateway, key: ConfigKey, read: ConfigRead, trim: string -> string): Outcome<string> {
    if gateway.configRef == "" then Ok("")
    else match read
      case NotFound => Ok("")
      case ReadError => Failed
      case Found(data) => Ok(trim(if key in data then data[key] else ""))
  }

  function GatewayIngressPeers(
    op: Identity, server: Server, read: ConfigRead, trim: string -> string): Outcome<seq<Peer>> {
    if op.posture != Restricted then Ok([])
    else if server.gateway.None? then Ok([])
    else if |server.ingressFrom| > 0 then Ok([])
    else if server.gateway.value.provider.OtherProvider? then Ok([])
    else
      var key := if server.gateway.value.provider == HTTPRoute then GatewayNamespaceKey else ExtensionNamespaceKey;
      match ResolveGatewayNamespace(server.gateway.value, key, read, trim)
      case Failed => Failed
      case Ok(ns) => if ns == "" then Ok([]) else Ok([NamespaceNamePeer(ns)])
  }

  function IngressPorts(server: Server): seq<Port> {
    [Port(TCP, server.port)]
  }

  function DefaultIngressRules(server: Server, posture: Posture, derived: seq<Peer>): seq<Rule> {
    if |server.ingressFrom| > 0 then [Rule(IngressPorts(server), server.ingressFrom)]
    else if posture == Restricted then
      if |derived| > 0 then [Rule(IngressPorts(server), derived)] else []
    else [Rule(IngressPorts(server), [])]
  }

  function CreatePolicy(op: Identity, server: Server, derived: seq<Peer>): Policy {
    Policy(server.namespace, DefaultIngressRules(server, op.posture, derived))
  }

  /** The policy a reconcile wants, or no change at all when the ConfigMap cannot be read. */
  function DesiredPolicy(op: Identity, server: Server, read: ConfigRead, trim: string -> string): Outcome<Policy> {
    match GatewayIngressPeers(op, server, read, trim)
    case Failed => Failed
    case Ok(peers) => Ok(CreatePolicy(op, server, OperatorIngressPeers(op, server) + peers))
  }

  predicate HasIngressSourceRestriction(policy: Policy, parse: CidrParser) {
    || |policy.ingress| == 0
    || exists i :: 0 <= i < |policy.ingress| && |policy.ingress[i].ports| > 0 && |policy.ingress[i].from| > 0 &&
         forall j :: 0 <= j < |policy.ingress[i].from| ==> !PeerAdmitsAllSources(policy.ingress[i].from[j], parse)
  }

  // ---- Admission ----

  ghost predicate AnyPeer(peers: seq<Peer>, ns: string, parse: CidrParser, src: Source)
    requires ParsesMasked(parse)
  {
    exists j :: 0 <= j < |peers| && PeerAdmits(peers[j], ns, parse, src)
  }

  ghost predicate RuleAdmits(rule: Rule, ns: string, parse: CidrParser, src: Source, to: Port)
    requires ParsesMasked(parse)
  {
    && (rule.ports == [] || to in rule.ports)
    && (rule.from == [] || AnyPeer(rule.from, ns, parse, src))
  }

  ghost predicate Admits(policy: Policy, parse: CidrParser, src: Source, to: Port)
    requires ParsesMasked(parse)
  {
    exists i :: 0 <= i < |policy.ingress| && RuleAdmits(policy.ingress[i], policy.namespace, parse, src, to)
  }

  /** A pod of the operator: its namespace by name, its labels including the operator's. */
  ghost predicate IsOperatorPod(op: Identity, src: Source) {
    && op.namespace != "" && |op.podLabels| > 0
    && src.Pod? && src.namespace == op.namespace
    && forall k :: k in op.podLabels ==> k in src.podLabels && src.podLabels[k] == op.podLabels[k]
  }

  /** The namespace gateway traffic comes from, as far as the ConfigMap names one. */
  function GatewaySource(server: Server, read: ConfigRead, trim: string -> string): string {
    match server.gateway
    case None => ""
    case Some(g) =>
      if g.provider.OtherProvider? || g.configRef == "" || !read.Found? then ""
      else
        var key := if g.provider == HTTPRoute then GatewayNamespaceKey else ExtensionNamespaceKey;
        trim(if key in read.data then read.data[key] else "")
  }

  ghost predicate MayReach(
    op: Identity, server: Server, read: ConfigRead, trim: string -> string, parse: CidrParser, src: Source)
    requires ParsesMasked(parse)
  {
    if |server.ingressFrom| > 0 then AnyPeer(server.ingressFrom, server.namespace, parse, src)
    else op.posture == Restricted ==>
      || IsOperatorPod(op, src)
      || (GatewaySource(server, read, trim) != "" && src.Pod? && src.namespace == GatewaySource(server, read, trim))
  }

  lemma NamePeerAdmits(ns: string, policyNs: string, parse: CidrParser, src: Source)
    requires ParsesMasked(parse) && Possible(src)
    ensures PeerAdmits(NamespaceNamePeer(ns), policyNs, parse, src) <==> src.Pod? && src.namespace == ns
  {
    var sel := NamespaceNamePeer(ns).namespaceSelector.value;
    if src.Pod? {
      assert NamespaceName in sel.matchLabels && sel.matchLabels[NamespaceName] == ns;
    }
  }

  lemma OperatorPeerAdmits(op: Identity, server: Server, parse: CidrParser, src: Source)
    requires ParsesMasked(parse) && Possible(src) && op.posture == Restricted && |server.ingressFrom| == 0
    ensures AnyPeer(OperatorIngressPeers(op, server), server.namespace, parse, src) <==> IsOperatorPod(op, src)
  {
    var peers := OperatorIngressPeers(op, server);
    if op.namespace != "" && |op.podLabels| > 0 {
      NamePeerAdmits(op.namespace, server.namespace, parse, src);
      if src.Pod? {
        assert Matches(peers[0].podSelector.value, src.podLabels) <==>
          forall k :: k in op.podLabels ==> k in src.podLabels && src.podLabels[k] == op.podLabels[k];
      }
      assert PeerAdmits(peers[0], server.namespace, parse, src) <==> IsOperatorPod(op, src);
    }
  }

  lemma GatewayPeerAdmits(
    op: Identity, server: Server, read: ConfigRead, trim: string -> string, parse: CidrParser, src: Source)
    requires ParsesMasked(parse) && Possible(src) && op.posture == Restricted && |server.ingressFrom| == 0
    requires GatewayIngressPeers(op, server, read, trim).Ok?
    ensures var peers := GatewayIngressPeers(op, server, read, trim).value; var ns := GatewaySource(server, read, trim);
      AnyPeer(peers, server.namespace, parse, src) <==> ns != "" && src.Pod? && src.namespace == ns
  {
    var peers := GatewayIngressPeers(op, server, read, trim).value;
    var ns := GatewaySource(server, read, trim);
    if ns != "" {
      NamePeerAdmits(ns, server.namespace, parse, src);
      assert peers == [NamespaceNamePeer(ns)];
      assert PeerAdmits(peers[0], server.namespace, parse, src) <==> src.Pod? && src.namespace == ns;
    } else {
      assert peers == [];
    }
  }

  lemma AnyPeerAppend(a: seq<Peer>, b: seq<Peer>, ns: string, parse: CidrParser, src: Source)
    requires ParsesMasked(parse)
    ensures AnyPeer(a + b, ns, parse, src) <==> AnyPeer(a, ns, parse, src) || AnyPeer(b, ns, parse, src)
  {
    if AnyPeer(a, ns, parse, src) {
      var j :| 0 <= j < |a| && PeerAdmits(a[j], ns, parse, src);
      assert PeerAdmits((a + b)[j], ns, parse, src);
    }
    if AnyPeer(b, ns, parse, src) {
      var j :| 0 <= j < |b| && PeerAdmits(b[j], ns, parse, src);
      assert PeerAdmits((a + b)[|a| + j], ns, parse, src);
    }
  }

  /**
   Whatever the posture, the built policy admits a possible source exactly on the server's
   TCP port and exactly when it may reach the server: a declared peer when sources are
   declared, otherwise anything when open, and otherwise only operator pods and pods of
   the resolved gateway namespace.
   */
  lemma PolicyAdmitsExactly(
    op: Identity, server: Server, read: ConfigRead, trim: string -> string, parse: CidrParser, src: Source, to: Port)
    requires ParsesMasked(parse) && Possible(src)
    requires DesiredPolicy(op, server, read, trim).Ok?
    ensures Admits(DesiredPolicy(op, server, read, trim).value, parse, src, to)
      <==> to == Port(TCP, server.port) && MayReach(op, server, read, trim, parse, src)
  {
    var policy := DesiredPolicy(op, server, read, trim).value;
    if |server.ingressFrom| == 0 && op.posture == Restricted {
      var gw := GatewayIngressPeers(op, server, read, trim).value;
      var own := OperatorIngressPeers(op, server);
      OperatorPeerAdmits(op, server, parse, src);
      GatewayPeerAdmits(op, server, read, trim, parse, src);
      AnyPeerAppend(own, gw, server.namespace, parse, src);
      if |own + gw| > 0 {
        assert policy.ingress == [Rule(IngressPorts(server), own + gw)];
      }
    }
    if |policy.ingress| > 0 {
      assert Admits(policy, parse, src, to) <==> RuleAdmits(policy.ingress[0], server.namespace, parse, src, to);
    }
  }

  /** The one read that can keep the policy from being written: the gateway ConfigMap of a derived peer. */
  lemma DesiredPolicyFails(op: Identity, server: Server, read: ConfigRead, trim: string -> string)
    ensures DesiredPolicy(op, server, read, trim).Failed? <==>
      && op.posture == Restricted && |server.ingressFrom| == 0 && server.gateway.Some?
      && !server.gateway.value.provider.OtherProvider? && server.gateway.value.configRef != "" && read.ReadError?
  {
  }

  lemma DerivedPeersRestrict(op: Identity, server: Server, read: ConfigRead, trim: string -> string, parse: CidrParser)
    requires GatewayIngressPeers(op, server, read, trim).Ok?
    ensures var peers := OperatorIngressPeers(op, server) + GatewayIngressPeers(op, server, read, trim).value;
      forall j :: 0 <= j < |peers| ==> PeerRestrictsSource(peers[j], parse)
  {
    var peers := OperatorIngressPeers(op, server) + GatewayIngressPeers(op, server, read, trim).value;
    forall j | 0 <= j < |peers| ensures PeerRestrictsSource(peers[j], parse) {
      var sel := peers[j].namespaceSelector.value;
      assert NamespaceName in sel.matchLabels;
      assert !IsEmptySelector(sel);
    }
  }

  /** The reported posture does not depend on whether derived peers were resolved. */
  lemma PostureVerdictStable(op: Identity, server: Server, read: ConfigRead, trim: string -> string, parse: CidrParser)
    requires DesiredPolicy(op, server, read, trim).Ok?
    ensures HasIngressSourceRestriction(DesiredPolicy(op, server, read, trim).value, parse)
      <==> HasIngressSourceRestriction(CreatePolicy(op, server, []), parse)
  {
    if |server.ingressFrom| == 0 && op.posture == Restricted {
      DerivedPeersRestrict(op, server, read, trim, parse);
      var policy := DesiredPolicy(op, server, read, trim).value;
      if |policy.ingress| > 0 {
        assert policy.ingress[0].from
          == OperatorIngressPeers(op, server) + GatewayIngressPeers(op, server, read, trim).value;
      }
      assert HasIngressSourceRestriction(policy, parse);
    }
  }

  // ---- The verdict against what the policy admits ----

  /** The three kinds of source: pods, and addresses of either width. */
  datatype SourceKind = Pods | Addresses4 | Addresses6

  ghost predicate OfKind(src: Source, kind: SourceKind) {
    match kind
    case Pods => src.Pod? && Possible(src)
    case Addresses4 => src.Address? && |src.bits| == 32
    case Addresses6 => src.Address? && |src.bits| == 128
  }

  /** The kind of source a valid peer can admit. */
  function KindOf(peer: Peer, parse: CidrParser): SourceKind {
    if peer.ipBlock.None? then Pods
    else if parse(peer.ipBlock.value.cidr).Some? && |parse(peer.ipBlock.value.cidr).value.ip| == 32 then Addresses4
    else Addresses6
  }

  /** A declared peer that passed validation, with selectors the API server accepts. */
  ghost predicate Sane(peer: Peer, parse: CidrParser) {
    && PeerValid(peer, parse)
    && (peer.podSelector.Some? ==> WellFormed(peer.podSelector.value))
    && (peer.namespaceSelector.Some? ==> WellFormed(peer.namespaceSelector.value))
  }

  ghost predicate AllSane(peers: seq<Peer>, parse: CidrParser) {
    forall j :: 0 <= j < |peers| ==> Sane(peers[j], parse)
  }

  /** Every source of the kind gets through on this port. */
  ghost predicate AdmitsKind(policy: Policy, parse: CidrParser, kind: SourceKind, to: Port)
    requires ParsesMasked(parse)
  {
    forall src :: OfKind(src, kind) ==> Admits(policy, parse, src, to)
  }

  /** Some kind of source is not restricted at all. */
  ghost predicate Unrestricted(policy: Policy, parse: CidrParser, to: Port)
    requires ParsesMasked(parse)
  {
    exists kind :: AdmitsKind(policy, parse, kind, to)
  }

  /** No two declared peers are about the same kind of source. */
  predicate OnePeerPerKind(peers: seq<Peer>, parse: CidrParser) {
    forall i, j :: 0 <= i < j < |peers| ==> KindOf(peers[i], parse) != KindOf(peers[j], parse)
  }

  /** Some declared peer only asks for the name label that every namespace carries. */
  predicate SomeNameLabelOnly(peers: seq<Peer>) {
    exists j :: 0 <= j < |peers| && NameLabelOnly(peers[j])
  }

  lemma OtherKindRefused(peer: Peer, ns: string, parse: CidrParser, src: Source, kind: SourceKind)
    requires ParsesMasked(parse) && Sane(peer, parse) && OfKind(src, kind) && KindOf(peer, parse) != kind
    ensures !PeerAdmits(peer, ns, parse, src)
  {
  }

  lemma AdmitsEveryKind(peer: Peer, ns: string, parse: CidrParser)
    requires ParsesMasked(parse) && Sane(peer, parse)
    ensures AdmitsEvery(peer, ns, parse)
      <==> forall src :: OfKind(src, KindOf(peer, parse)) ==> PeerAdmits(peer, ns, parse, src)
  {
    if peer.ipBlock.Some? && AdmitsEvery(peer, ns, parse) {
      forall src | OfKind(src, KindOf(peer, parse))
        ensures PeerAdmits(peer, ns, parse, src)
      {
        assert src == Address(src.bits);
      }
    }
  }

  /** A peer that restricts leaves out a source of its own kind. */
  lemma RestrictingPeerRefuses(peer: Peer, ns: string, parse: CidrParser) returns (src: Source)
    requires ParsesMasked(parse) && Sane(peer, parse) && !NameLabelOnly(peer) && PeerRestrictsSource(peer, parse)
    ensures OfKind(src, KindOf(peer, parse)) && !PeerAdmits(peer, ns, parse, src)
  {
    AdmitsAllSourcesExact(peer, ns, parse);
    AdmitsEveryKind(peer, ns, parse);
    src :| OfKind(src, KindOf(peer, parse)) && !PeerAdmits(peer, ns, parse, src);
  }

  lemma SomeOfKind(kind: SourceKind) returns (src: Source)
    ensures OfKind(src, kind)
  {
    match kind
    case Pods => src := Pod("", map[NamespaceName := ""], map[]);
    case Addresses4 => src := Address(seq(32, i => false));
    case Addresses6 => src := Address(seq(128, i => false));
  }

  /** One restricting peer per kind: no kind is admitted as a whole. */
  lemma DeclaredPeersRefuse(peers: seq<Peer>, ns: string, parse: CidrParser, kind: SourceKind) returns (src: Source)
    requires ParsesMasked(parse) && AllSane(peers, parse) && OnePeerPerKind(peers, parse) && !SomeNameLabelOnly(peers)
    requires forall j :: 0 <= j < |peers| ==> PeerRestrictsSource(peers[j], parse)
    ensures OfKind(src, kind) && !AnyPeer(peers, ns, parse, src)
  {
    if j :| 0 <= j < |peers| && KindOf(peers[j], parse) == kind {
      src := RestrictingPeerRefuses(peers[j], ns, parse);
    } else {
      src := SomeOfKind(kind);
    }
    forall j | 0 <= j < |peers|
      ensures !PeerAdmits(peers[j], ns, parse, src)
    {
      if KindOf(peers[j], parse) != kind {
        OtherKindRefused(peers[j], ns, parse, src, kind);
      }
    }
  }

  /** A declared peer that admits its whole kind leaves the policy unrestricted. */
  lemma WholeKindDeclared(
    op: Identity, server: Server, read: ConfigRead, trim: string -> string, parse: CidrParser, j: nat)
    requires ParsesMasked(parse) && AllSane(server.ingressFrom, parse) && j < |server.ingressFrom|
    requires AdmitsEvery(server.ingressFrom[j], server.namespace, parse)
    requires DesiredPolicy(op, server, read, trim).Ok?
    ensures Unrestricted(DesiredPolicy(op, server, read, trim).value, parse, Port(TCP, server.port))
  {
    var policy, to := DesiredPolicy(op, server, read, trim).value, Port(TCP, server.port);
    var peer := server.ingressFrom[j];
    AdmitsEveryKind(peer, server.namespace, parse);
    forall src | OfKind(src, KindOf(peer, parse))
      ensures Admits(policy, parse, src, to)
    {
      assert PeerAdmits(server.ingressFrom[j], server.namespace, parse, src);
      PolicyAdmitsExactly(op, server, read, trim, parse, src, to);
    }
    assert AdmitsKind(policy, parse, KindOf(peer, parse), to);
  }

  /** A verdict of no restriction is always right: some kind of source is admitted as a whole. */
  lemma UnrestrictedVerdictRight(
    op: Identity, server: Server, read: ConfigRead, trim: string -> string, parse: CidrParser)
    requires ParsesMasked(parse) && AllSane(server.ingressFrom, parse)
    requires DesiredPolicy(op, server, read, trim).Ok?
    requires !HasIngressSourceRestriction(DesiredPolicy(op, server, read, trim).value, parse)
    ensures Unrestricted(DesiredPolicy(op, server, read, trim).value, parse, Port(TCP, server.port))
  {
    var policy, to := DesiredPolicy(op, server, read, trim).value, Port(TCP, server.port);
    PostureVerdictStable(op, server, read, trim, parse);
    if |server.ingressFrom| > 0 {
      var j := OpenPeer(op, server, parse);
      AdmitsAllSourcesExact(server.ingressFrom[j], server.namespace, parse);
      WholeKindDeclared(op, server, read, trim, parse, j);
    } else {
      forall src | OfKind(src, Pods)
        ensures Admits(policy, parse, src, to)
      {
        PolicyAdmitsExactly(op, server, read, trim, parse, src, to);
      }
      assert AdmitsKind(policy, parse, Pods, to);
    }
  }

  lemma OpenPeer(op: Identity, server: Server, parse: CidrParser) returns (j: nat)
    requires |server.ingressFrom| > 0 && !HasIngressSourceRestriction(CreatePolicy(op, server, []), parse)
    ensures j < |server.ingressFrom| && PeerAdmitsAllSources(server.ingressFrom[j], parse)
  {
    var policy := CreatePolicy(op, server, []);
    assert policy.ingress[0].from == server.ingressFrom && |policy.ingress[0].ports| > 0;
    j :| 0 <= j < |server.ingressFrom| && PeerAdmitsAllSources(server.ingressFrom[j], parse);
  }

  lemma DeclaredRestricts(op: Identity, server: Server, parse: CidrParser)
    requires |server.ingressFrom| > 0 && HasIngressSourceRestriction(CreatePolicy(op, server, []), parse)
    ensures forall j :: 0 <= j < |server.ingressFrom| ==> PeerRestrictsSource(server.ingressFrom[j], parse)
  {
    var policy := CreatePolicy(op, server, []);
    assert policy.ingress == [Rule(IngressPorts(server), server.ingressFrom)];
  }

  /** Without declared peers the restricted posture refuses all addresses and the pods of some namespace. */
  lemma DerivedPeersRefuse(op: Identity, server: Server, read: ConfigRead, trim: string -> string, kind: SourceKind)
    returns (src: Source)
    ensures OfKind(src, kind) && !IsOperatorPod(op, src)
    ensures src.Pod? ==> src.namespace != GatewaySource(server, read, trim)
  {
    src := SomeOfKind(kind);
    if kind == Pods {
      var ns := FreshName([op.namespace, GatewaySource(server, read, trim)]);
      src := Pod(ns, map[NamespaceName := ns], map[]);
    }
  }

  /**
   With one peer per kind, none of them name-label-only, a verdict of restriction is right:
   every kind has a refused source.
   */
  lemma RestrictedVerdictRight(
    op: Identity, server: Server, read: ConfigRead, trim: string -> string, parse: CidrParser, kind: SourceKind)
    returns (src: Source)
    requires ParsesMasked(parse) && AllSane(server.ingressFrom, parse)
    requires OnePeerPerKind(server.ingressFrom, parse) && !SomeNameLabelOnly(server.ingressFrom)
    requires DesiredPolicy(op, server, read, trim).Ok?
    requires HasIngressSourceRestriction(DesiredPolicy(op, server, read, trim).value, parse)
    ensures OfKind(src, kind)
      && !Admits(DesiredPolicy(op, server, read, trim).value, parse, src, Port(TCP, server.port))
  {
    PostureVerdictStable(op, server, read, trim, parse);
    if |server.ingressFrom| > 0 {
      DeclaredRestricts(op, server, parse);
      src := DeclaredPeersRefuse(server.ingressFrom, server.namespace, parse, kind);
    } else {
      assert op.posture == Restricted by { OpenIsUnrestricted(op, server, parse); }
      src := DerivedPeersRefuse(op, server, read, trim, kind);
    }
    PolicyAdmitsExactly(op, server, read, trim, parse, src, Port(TCP, server.port));
  }

  lemma OpenIsUnrestricted(op: Identity, server: Server, parse: CidrParser)
    requires |server.ingressFrom| == 0
    ensures HasIngressSourceRestriction(CreatePolicy(op, server, []), parse) <==> op.posture == Restricted
  {
  }

  /**
   For every server with at most one declared peer per kind of source: some kind of source is
   admitted as a whole exactly when the published verdict says so, or a peer that only asks for
   the name label hides it.
   */
  lemma VerdictExact(op: Identity, server: Server, read: ConfigRead, trim: string -> string, parse: CidrParser)
    requires ParsesMasked(parse) && AllSane(server.ingressFrom, parse) && OnePeerPerKind(server.ingressFrom, parse)
    requires DesiredPolicy(op, server, read, trim).Ok?
    ensures var policy := DesiredPolicy(op, server, read, trim).value;
      Unrestricted(policy, parse, Port(TCP, server.port)) <==>
        !HasIngressSourceRestriction(policy, parse) || SomeNameLabelOnly(server.ingressFrom)
  {
    var policy, to := DesiredPolicy(op, server, read, trim).value, Port(TCP, server.port);
    if j :| 0 <= j < |server.ingressFrom| && NameLabelOnly(server.ingressFrom[j]) {
      AdmitsAllSourcesExact(server.ingressFrom[j], server.namespace, parse);
      WholeKindDeclared(op, server, read, trim, parse, j);
    } else if HasIngressSourceRestriction(policy, parse) {
      forall kind: SourceKind
        ensures !AdmitsKind(policy, parse, kind, to)
      {
        var src := RestrictedVerdictRight(op, server, read, trim, parse, kind);
      }
    } else {
      UnrestrictedVerdictRight(op, server, read, trim, parse);
    }
  }

  /** Restriction is judged peer by peer: two half ranges each restrict, together they admit all addresses. */
  lemma HalvesCoverEverything(op: Identity, ns: string, port: int, parse: CidrParser, lo: string, hi: string)
    requires ParsesMasked(parse) && lo != "" && hi != ""
    requires parse(lo) == Some(IPNet(seq(32, i => false), 1))
    requires parse(hi) == Some(IPNet(seq(32, i => i == 0), 1))
    ensures var peers := [Peer(None, None, Some(IPBlock(lo, []))), Peer(None, None, Some(IPBlock(hi, [])))];
      var policy := CreatePolicy(op, Server(ns, port, peers, None), []);
      && AllSane(peers, parse) && !OnePeerPerKind(peers, parse)
      && HasIngressSourceRestriction(policy, parse) && Unrestricted(policy, parse, Port(TCP, port))
  {
    var peers := [Peer(None, None, Some(IPBlock(lo, []))), Peer(None, None, Some(IPBlock(hi, [])))];
    var policy := CreatePolicy(op, Server(ns, port, peers, None), []);
    forall src | OfKind(src, Addresses4)
      ensures Admits(policy, parse, src, Port(TCP, port))
    {
      HalvesAdmit(peers, ns, parse, lo, hi, src.bits);
      assert RuleAdmits(policy.ingress[0], ns, parse, src, Port(TCP, port));
    }
    assert AdmitsKind(policy, parse, Addresses4, Port(TCP, port));
    assert policy.ingress[0].from == peers && |policy.ingress[0].ports| > 0;
    assert PeerRestrictsSource(peers[0], parse) && PeerRestrictsSource(peers[1], parse);
    assert KindOf(peers[0], parse) == KindOf(peers[1], parse);
  }

  lemma HalvesAdmit(peers: seq<Peer>, ns: string, parse: CidrParser, lo: string, hi: string, a: Bits)
    requires ParsesMasked(parse) && |a| == 32
    requires parse(lo) == Some(IPNet(seq(32, i => false), 1))
    requires parse(hi) == Some(IPNet(seq(32, i => i == 0), 1))
    requires peers == [Peer(None, None, Some(IPBlock(lo, []))), Peer(None, None, Some(IPBlock(hi, [])))]
    ensures AnyPeer(peers, ns, parse, Address(a))
  {
    var j := if a[0] then 1 else 0;
    var net := parse(if a[0] then hi else lo).value;
    assert a[..1] == net.ip[..1];
    assert PeerAdmits(peers[j], ns, parse, Address(a));
  }
}
