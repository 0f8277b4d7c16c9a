/**
 What holds of every status the reconciler applies, whatever it read and whichever
 path it took: one condition per type, transition times that follow the status, and
 an address published for verified servers only.
 */
module ReconcileStatus {
  import opened Wrappers
  import opened Conditions
  import opened Availability
  import opened Reconcile

  predicate HoldsTrue(cs: seq<Condition>, t: ConditionType) {
    var c := Find(cs, t);
    c.Some? && c.value.status == StatusTrue
  }

  /** The transition time moves exactly when the status does. */
  ghost predicate TimeFollowsStatus(c: Condition, previous: seq<Condition>, now: int) {
    var p := Find(previous, c.ctype);
    c.lastTransitionTime == if p.Some? && p.value.status == c.status then p.value.lastTransitionTime else now
  }

  ghost predicate TimesFollowStatus(cs: seq<Condition>, previous: seq<Condition>, now: int) {
    forall i :: 0 <= i < |cs| ==> TimeFollowsStatus(cs[i], previous, now)
  }

  ghost predicate AddressWhenVerified(p: Published) {
    p.address.Some? <==> HoldsTrue(p.conditions, Verified)
  }

  /** Conditions listed by type in strictly increasing rank are unique. */
  function Rank(t: ConditionType): int {
    match t
    case Accepted => 0
    case Available => 1
    case Verified => 2
    case PolicyEnforced => 3
    case GatewayRegistered => 4
    case NetworkPolicyRestricted => 5
    case Registered => 6
    case Ready => 7
    case OtherType(_) => 8
  }

  ghost predicate Fits(c: Condition, t: ConditionType, previous: seq<Condition>, now: int) {
    c.ctype == t && TimeFollowsStatus(c, previous, now)
  }

  lemma ListedUnique(
    accepted: Condition, available: Condition, verified: Condition, gateway: Option<Condition>,
      posture: Option<Condition>, policy: Condition)
    requires accepted.ctype == Accepted && available.ctype == Available && verified.ctype == Verified
      && policy.ctype == PolicyEnforced
    requires gateway.Some? ==> gateway.value.ctype == GatewayRegistered
    requires posture.Some? ==> posture.value.ctype == NetworkPolicyRestricted
    ensures UniqueTypes([accepted, available, verified] + Optional(gateway) + Optional(posture) + [policy])
  {
  }

  lemma ListedSound(
    accepted: Condition, available: Condition, verified: Condition, gateway: Option<Condition>,
      posture: Option<Condition>,
    policy: Condition, previous: seq<Condition>, now: int)
    requires Fits(accepted, Accepted, previous, now) && Fits(available, Available, previous, now)
    requires Fits(verified, Verified, previous, now) && Fits(policy, PolicyEnforced, previous, now)
    requires gateway.Some? ==> Fits(gateway.value, GatewayRegistered, previous, now)
    requires posture.Some? ==> Fits(posture.value, NetworkPolicyRestricted, previous, now)
    ensures var cs := [accepted, available, verified] + Optional(gateway) + Optional(posture) + [policy];
      && UniqueTypes(cs) && TimesFollowStatus(cs, previous, now)
      && Find(cs, Verified) == Some(verified) && Find(cs, Available) == Some(available)
        && Find(cs, GatewayRegistered) == gateway
  {
    var cs := [accepted, available, verified] + Optional(gateway) + Optional(posture) + [policy];
    ListedUnique(accepted, available, verified, gateway, posture, policy);
    FindUnique(cs, 1);
    FindUnique(cs, 2);
    if gateway.Some? {
      FindUnique(cs, 3);
    }
    FindMember(cs, GatewayRegistered);
  }

  lemma AssembledSound(
    server: Server, r: Reached, gw: Option<GatewayStatus>, verified: Condition, info: Option<Info>, policy: Report,
      now: int)
    requires verified.ctype == Verified && TimeFollowsStatus(verified, server.status.conditions, now)
    ensures var p := Assemble(server, r, gw, WorkloadAvailability(server, r, now), verified, info, policy, now);
      && UniqueTypes(p.conditions) && TimesFollowStatus(p.conditions, server.status.conditions, now)
      && Find(p.conditions, Verified) == Some(verified)
      && Find(p.conditions, Available) == Some(OverrideAvailable(server, gw, WorkloadAvailability(server, r, now), now))
      && Find(p.conditions, GatewayRegistered) == StampOptional(GatewayRegistered, GatewayReport(gw), server, now)
  {
    var previous := server.status.conditions;
    var available := OverrideAvailable(server, gw, WorkloadAvailability(server, r, now), now);
    assert TimeFollowsStatus(available, previous, now);
    ListedSound(
      Stamp(Accepted, ACCEPTED, server, now), available, verified,
      StampOptional(GatewayRegistered, GatewayReport(gw), server, now),
      StampOptional(NetworkPolicyRestricted, r.posture, server, now),
      Stamp(PolicyEnforced, policy, server, now), previous, now);
  }

  lemma FailureUnique(
    server: Server, accepted: Report, available: Report, posture: Option<Report>, policy: Report, now: int)
    ensures UniqueTypes(FailureStatus(server, accepted, available, posture, policy, now).conditions)
  {
    var cs := FailureStatus(server, accepted, available, posture, policy, now).conditions;
    assert forall i, j :: 0 <= i < j < |cs| ==> Rank(cs[i].ctype) < Rank(cs[j].ctype);
  }

  lemma FailureSound(
    server: Server, accepted: Report, available: Report, posture: Option<Report>, policy: Report, now: int)
    ensures var p := FailureStatus(server, accepted, available, posture, policy, now);
      && UniqueTypes(p.conditions) && TimesFollowStatus(p.conditions, server.status.conditions, now)
      && !HoldsTrue(p.conditions, Verified)
  {
    FailureUnique(server, accepted, available, posture, policy, now);
    FindUnique(FailureStatus(server, accepted, available, posture, policy, now).conditions, 2);
  }

  lemma HandshakeSound(server: Server, previousHash: string, retry: Option<Retry>, r: Reached, now: int)
    ensures var hs := DoHandshake(server, previousHash, r, WorkloadAvailability(server, r, now), now);
      && CountRetry(server, retry, hs.verified).verified.ctype == Verified
      && TimeFollowsStatus(CountRetry(server, retry, hs.verified).verified, server.status.conditions, now)
  {
  }

  ghost predicate StatusSound(p: Published, previous: seq<Condition>, now: int) {
    UniqueTypes(p.conditions) && TimesFollowStatus(p.conditions, previous, now) && AddressWhenVerified(p)
  }

  /** The failure paths never report a verified server. */
  lemma FailureApplied(s: State, i: Input)
    requires Step(s, i).applied.Some? && !i.path.Endpoint?
    ensures StatusSound(Step(s, i).applied.value, s.server.value.status.conditions, i.now)
    ensures !HoldsTrue(Step(s, i).applied.value.conditions, Verified)
  {
    var server := s.server.value;
    if i.path.InvalidConfig? {
      FailureSound(server, Report(StatusFalse, i.path.reason, i.path.text), MUST_FIX, None, i.policy, i.now);
    } else {
      var unavailable := Report(StatusFalse, UnavailableReason(i.path.resource), i.path.text);
      FailureSound(server, ACCEPTED, unavailable, i.path.freshPosture, i.policy, i.now);
    }
  }

  /** Every applied status, on every success and failure path. */
  lemma AppliedStatusSound(s: State, i: Input)
    requires Step(s, i).applied.Some?
    ensures var p := Step(s, i).applied.value;
      && UniqueTypes(p.conditions)
      && TimesFollowStatus(p.conditions, s.server.value.status.conditions, i.now)
      && AddressWhenVerified(p)
  {
    if i.path.Endpoint? {
      EndpointStatus(s, i, i.path.reached);
    } else {
      FailureApplied(s, i);
    }
  }

  /** The conditions of a status that reached the endpoint, by type. */
  lemma EndpointStatus(s: State, i: Input, r: Reached)
    requires s.server.Some? && i.path == Endpoint(r)
    ensures var p := Step(s, i).applied.value;
      var e := ReconcileEndpoint(s.server.value, s.retry, s.caHash, r, i.policy, i.now);
      var gw := ReadGateway(r.gateway);
      && Step(s, i).applied == Some(e.status)
      && UniqueTypes(p.conditions)
      && TimesFollowStatus(p.conditions, s.server.value.status.conditions, i.now)
      && AddressWhenVerified(p)
      && Find(p.conditions, Verified) == Some(e.book.verified)
      && Find(p.conditions, Available)
        == Some(OverrideAvailable(s.server.value, gw, WorkloadAvailability(s.server.value, r, i.now), i.now))
      && Find(p.conditions, GatewayRegistered)
        == StampOptional(GatewayRegistered, GatewayReport(gw), s.server.value, i.now)
  {
    var server := s.server.value;
    HandshakeSound(server, s.caHash, s.retry, r, i.now);
    var e := ReconcileEndpoint(server, s.retry, s.caHash, r, i.policy, i.now);
    AssembledSound(server, r, ReadGateway(r.gateway), e.book.verified, e.handshake.info, i.policy, i.now);
  }

  /** A handshake that failed or did not happen publishes no address. */
  lemma UnverifiedStatus(s: State, i: Input)
    requires Step(s, i).applied.Some?
    requires var h := Step(s, i).handshake;
      h.Some? ==> h.value.verified.status != StatusTrue
    ensures Step(s, i).applied.value.address == None
  {
    if i.path.Endpoint? {
      var e := ReconcileEndpoint(s.server.value, s.retry, s.caHash, i.path.reached, i.policy, i.now);
      assert Step(s, i).handshake == Some(e.handshake) && Step(s, i).applied == Some(e.status);
      assert e.book.verified.status == e.handshake.verified.status;
    }
  }

  predicate WithdrawnByGateway(c: Condition) {
    c.status == StatusFalse && c.reason == GatewayNotRegistered
  }

  /** The published Available condition of a verified server, given what the gateway says. */
  predicate AvailableUnlessWithdrawn(cs: seq<Condition>, gateway: GatewayRead) {
    var available := Find(cs, Available);
    && available.Some?
    && (available.value.status == StatusTrue || WithdrawnByGateway(available.value))
    && (available.value.status == StatusTrue ==> available.value.reason == WorkloadAvailable)
    && (available.value.status == StatusTrue <==> gateway == NoGateway || HoldsTrue(cs, GatewayRegistered))
  }

  lemma VerifiedEndpoint(s: State, i: Input, r: Reached)
    requires s.server.Some? && i.path == Endpoint(r)
    requires HoldsTrue(Step(s, i).applied.value.conditions, Verified)
    ensures Instances(r.workload) > 0
    ensures AvailableUnlessWithdrawn(Step(s, i).applied.value.conditions, r.gateway)
  {
    EndpointStatus(s, i, r);
    var e := ReconcileEndpoint(s.server.value, s.retry, s.caHash, r, i.policy, i.now);
    assert e.book.verified.status == StatusTrue;
    assert AvailableVerdict(r.workload) == Verdict(StatusTrue, WorkloadAvailable);
  }

  /**
   A verified status was observed on a serving workload. Its Available condition is True
   exactly when no gateway withholds it, and otherwise names the gateway as the cause.
   */
  lemma VerifiedMeansServing(s: State, i: Input)
    requires Step(s, i).applied.Some? && HoldsTrue(Step(s, i).applied.value.conditions, Verified)
    ensures i.path.Endpoint? && Instances(i.path.reached.workload) > 0
    ensures AvailableUnlessWithdrawn(Step(s, i).applied.value.conditions, i.path.reached.gateway)
  {
    if i.path.Endpoint? {
      VerifiedEndpoint(s, i, i.path.reached);
    } else {
      FailureApplied(s, i);
    }
  }

  /** The comment that Verified implies Available does not hold: a missing binding is enough. */
  lemma VerifiedWithoutAvailable(s: State, i: Input, r: Reached)
    requires s.server.Some? && i.path == Endpoint(r)
    requires AvailableVerdict(r.workload) == Verdict(StatusTrue, WorkloadAvailable)
    requires r.tls == TLSReady && r.dial.Success? && r.gateway == BindingMissing
    ensures HoldsTrue(Step(s, i).applied.value.conditions, Verified)
    ensures !HoldsTrue(Step(s, i).applied.value.conditions, Available)
    ensures Step(s, i).applied.value.address == Some(r.clusterURL)
  {
    EndpointStatus(s, i, r);
  }

  /** A binding status as the gateway controllers keep it. */
  predicate RegisteredMeansURL(conditions: seq<Condition>, url: string) {
    HoldsTrue(conditions, Registered) <==> url != ""
  }

  /** A server registered with its gateway publishes the gateway's URL, never the cluster-internal one. */
  lemma RegisteredPublishesGatewayURL(s: State, i: Input)
    requires Step(s, i).applied.Some?
    requires HoldsTrue(Step(s, i).applied.value.conditions, Verified)
    requires HoldsTrue(Step(s, i).applied.value.conditions, GatewayRegistered)
    requires i.path.Endpoint? && i.path.reached.gateway.BindingRead? ==>
      RegisteredMeansURL(i.path.reached.gateway.conditions, i.path.reached.gateway.url)
    ensures i.path.Endpoint? && i.path.reached.gateway.BindingRead?
    ensures i.path.reached.gateway.url != ""
    ensures Step(s, i).applied.value.address == Some(i.path.reached.gateway.url)
  {
    VerifiedMeansServing(s, i);
    EndpointStatus(s, i, i.path.reached);
  }
}
