/**
 What every reconcile of an existing server publishes, remembers and asks for next, stated on
 what it observed: the workload, the stored status, the transport, the dial and the gateway.
 */
module ReconcileOutcomes {
  import opened Wrappers
  import opened Conditions
  import opened Availability
  import opened Reconcile
  import opened ReconcileStatus

  // ---- Verification ----

  /** The endpoint answered the dial, if only with a demand for authentication. */
  predicate Answers(r: Reached) {
    r.tls.TLSReady? && (r.dial.Success? || r.dial.AuthError?)
  }

  /** The stored status lets the dial be skipped for this CA bundle. */
  predicate Shortcut(s: State, r: Reached)
    requires s.server.Some?
  {
    var status := s.server.value.status;
    && HoldsTrue(status.conditions, Verified) && status.observedGeneration == s.server.value.generation
    && status.serverInfo.Some? && s.caHash == r.caHash
  }

  /** The published Verified condition as the observations determine it. */
  ghost predicate VerifiedAs(p: Published, status: Status, reason: Reason) {
    var v := Find(p.conditions, Verified);
    v.Some? && v.value.status == status && v.value.reason == reason
  }

  lemma HandshakeByCase(s: State, i: Input, r: Reached)
    requires s.server.Some? && i.path == Endpoint(r)
    ensures var h := DoHandshake(s.server.value, s.caHash, r, WorkloadAvailability(s.server.value, r, i.now), i.now);
      && (!Serves(r.workload) ==>
            h.verified.status == StatusUnknown && h.verified.reason == NotVerified && h.info == None)
      && (Serves(r.workload) && Shortcut(s, r) ==>
            && Some(h.verified) == Find(s.server.value.status.conditions, Verified)
            && h.info == s.server.value.status.serverInfo)
      && (Serves(r.workload) && !Shortcut(s, r) && r.tls.TLSBroken? ==>
            && h.verified.status == StatusFalse && h.verified.reason == EndpointUnavailable
            && h.verified.message == r.tls.text && h.info == None)
      && (Serves(r.workload) && !Shortcut(s, r) && r.tls.TLSReady? && r.dial.Refused? ==>
            && h.verified.status == StatusFalse && h.verified.reason == EndpointUnavailable
            && h.verified.message == r.dial.text && h.info == None)
      && (Serves(r.workload) && !Shortcut(s, r) && r.tls.TLSReady? && r.dial.AuthError? ==>
            h.verified.status == StatusTrue && h.verified.reason == AuthSkipped && h.info.Some?)
      && (Serves(r.workload) && !Shortcut(s, r) && r.tls.TLSReady? && r.dial.Success? ==>
            h.verified.status == StatusTrue && h.verified.reason == HandshakeVerified && h.info == r.dial.info)
  {
    VerdictExact(r.workload);
  }

  lemma VerifiedFrom(s: State, i: Input, r: Reached)
    requires s.server.Some? && i.path == Endpoint(r)
    ensures var h := DoHandshake(s.server.value, s.caHash, r, WorkloadAvailability(s.server.value, r, i.now), i.now);
      var v := Find(Step(s, i).applied.value.conditions, Verified);
      && Step(s, i).applied.Some?
      && v.Some? && v.value.status == h.verified.status && v.value.reason == h.verified.reason
      && Step(s, i).applied.value.serverInfo == h.info
  {
    EndpointStatus(s, i, r);
  }

  /**
   The published Verified condition: True exactly for a serving workload whose stored status
   opens the shortcut or whose endpoint answers; False exactly for a serving workload without
   either; Unknown exactly otherwise. The reason and the server info follow the case.
   */
  lemma VerifiedExact(s: State, i: Input, r: Reached)
    requires s.server.Some? && i.path == Endpoint(r)
    ensures Step(s, i).applied.Some?
    ensures var v := Find(Step(s, i).applied.value.conditions, Verified);
      && v.Some?
      && (v.value.status == StatusTrue <==> Serves(r.workload) && (Shortcut(s, r) || Answers(r)))
      && (v.value.status == StatusFalse <==> Serves(r.workload) && !Shortcut(s, r) && !Answers(r))
      && (v.value.status == StatusUnknown <==> !Serves(r.workload))
  {
    HandshakeByCase(s, i, r);
    VerifiedFrom(s, i, r);
  }

  /** The reason and the server info that go with it. */
  lemma VerifiedReason(s: State, i: Input, r: Reached)
    requires s.server.Some? && i.path == Endpoint(r)
    ensures Step(s, i).applied.Some?
    ensures var p := Step(s, i).applied.value;
      && (!Serves(r.workload) ==> VerifiedAs(p, StatusUnknown, NotVerified) && p.serverInfo == None)
      && (Serves(r.workload) && Shortcut(s, r) ==>
            && VerifiedAs(p, StatusTrue, Find(s.server.value.status.conditions, Verified).value.reason)
            && p.serverInfo == s.server.value.status.serverInfo)
      && (Serves(r.workload) && !Shortcut(s, r) && !Answers(r) ==>
            VerifiedAs(p, StatusFalse, EndpointUnavailable) && p.serverInfo == None)
      && (Serves(r.workload) && !Shortcut(s, r) && Answers(r) && r.dial.AuthError? ==>
            VerifiedAs(p, StatusTrue, AuthSkipped) && p.serverInfo.Some?)
      && (Serves(r.workload) && !Shortcut(s, r) && Answers(r) && r.dial.Success? ==>
            VerifiedAs(p, StatusTrue, HandshakeVerified) && p.serverInfo == r.dial.info)
  {
    HandshakeByCase(s, i, r);
    VerifiedFrom(s, i, r);
  }

  // ---- What is asked for next ----

  /** The handshake was attempted and failed. */
  ghost predicate HandshakeFails(s: State, r: Reached)
    requires s.server.Some?
  {
    Serves(r.workload) && !Shortcut(s, r) && !Answers(r)
  }

  /** Failures counted at this generation before this reconcile. */
  function FailuresBefore(s: State): int
    requires s.server.Some?
  {
    if s.retry.Some? && s.retry.value.generation == s.server.value.generation then s.retry.value.count else 0
  }

  /** This failure is the tenth or a later one, as a 32-bit count. */
  predicate Exhausted(s: State)
    requires s.server.Some?
  {
    FailuresBefore(s) >= 9 && FailuresBefore(s) != 0x7fff_ffff
  }

  /** A stored True/EndpointUnavailable condition, which the operator never writes, would count as a failure. */
  predicate PlainShortcut(s: State, r: Reached)
    requires s.server.Some?
  {
    Shortcut(s, r) ==> Find(s.server.value.status.conditions, Verified).value.reason != EndpointUnavailable
  }

  ghost predicate AsksNothing(s: State, i: Input)
    requires s.server.Some?
  {
    match i.path
    case Terminating => true
    case Transient => false
    case InvalidConfig(_, _) => i.write == Committed
    case ResourceFailed(_, _, _, cause) => cause == OwnershipConflict && i.write == Committed
    case Endpoint(r) =>
      && i.write == Committed
      && (if HandshakeFails(s, r) then Exhausted(s) else !r.gateway.BindingUnreadable?)
  }

  ghost predicate AsksForDelay(s: State, i: Input)
    requires s.server.Some?
  {
    match i.path
    case ResourceFailed(_, _, _, cause) => cause == UpdateConflict
    case Endpoint(r) => i.write == Committed && HandshakeFails(s, r) && !Exhausted(s)
    case _ => false
  }

  lemma EndpointRequeue(s: State, i: Input, r: Reached)
    requires s.server.Some? && i.path == Endpoint(r)
    ensures Step(s, i).requeue == Done <==> AsksNothing(s, i)
    ensures Step(s, i).requeue.After? <==> AsksForDelay(s, i)
  {
    HandshakeByCase(s, i, r);
    var h := DoHandshake(s.server.value, s.caHash, r, WorkloadAvailability(s.server.value, r, i.now), i.now);
    assert HandshakeFails(s, r) <==> h.verified.status == StatusFalse && h.verified.reason == EndpointUnavailable;
    EndpointAsks(s, i, r, h);
  }

  lemma EndpointAsks(s: State, i: Input, r: Reached, h: Handshake)
    requires s.server.Some? && i.path == Endpoint(r)
    requires h == DoHandshake(s.server.value, s.caHash, r, WorkloadAvailability(s.server.value, r, i.now), i.now)
    ensures var failed := h.verified.status == StatusFalse && h.verified.reason == EndpointUnavailable;
      && (Step(s, i).requeue == Done <==>
            i.write == Committed && (if failed then Exhausted(s) else !r.gateway.BindingUnreadable?))
      && (Step(s, i).requeue.After? <==> i.write == Committed && failed && !Exhausted(s))
  {
  }

  /**
   A reconcile asks for nothing more exactly when the object is going away, an invalid
   configuration or an ownership conflict was reported, or the endpoint was reported and its
   handshake did not fail or is exhausted, with no unreadable binding behind it. It asks for a
   delay exactly on an update conflict or an unexhausted handshake failure that was reported,
   and otherwise returns an error.
   */
  lemma RequeueExact(s: State, i: Input)
    requires s.server.Some?
    ensures Step(s, i).requeue == Done <==> AsksNothing(s, i)
    ensures Step(s, i).requeue.After? <==> AsksForDelay(s, i)
    ensures Step(s, i).requeue == WithError <==> !AsksNothing(s, i) && !AsksForDelay(s, i)
    ensures i.path.ResourceFailed? && i.path.cause == UpdateConflict ==> Step(s, i).requeue == After(1)
  {
    if i.path.Endpoint? {
      EndpointRequeue(s, i, i.path.reached);
    }
  }

  // ---- What is remembered ----

  lemma EndpointMemory(s: State, i: Input, r: Reached, h: Handshake)
    requires s.server.Some? && i.path == Endpoint(r)
    requires h == DoHandshake(s.server.value, s.caHash, r, WorkloadAvailability(s.server.value, r, i.now), i.now)
    ensures var failed := h.verified.reason == EndpointUnavailable;
      && (Step(s, i).state.retry.Some? <==> failed)
      && (failed ==> Step(s, i).state.retry.value.generation == s.server.value.generation)
      && Step(s, i).state.caHash ==
           (if i.write != Committed then s.caHash
            else if r.caHash == "" then ""
            else if h.verified.status == StatusTrue then r.caHash
            else s.caHash)
  {
  }

  /**
   The retry entry lives exactly through handshake failures: any other reconcile that reaches
   the endpoint drops it, the rest leave it alone. The CA hash changes only with an acknowledged
   endpoint status: to the bundle in force if that verified the server, to nothing without one.
   */
  lemma MemoryExact(s: State, i: Input)
    requires s.server.Some?
    ensures !i.path.Endpoint? ==> Step(s, i).state.retry == s.retry && Step(s, i).state.caHash == s.caHash
    ensures i.path.Endpoint? && PlainShortcut(s, i.path.reached) ==>
      (Step(s, i).state.retry.Some? <==> HandshakeFails(s, i.path.reached))
    ensures i.path.Endpoint? ==>
      var r := i.path.reached;
      Step(s, i).state.caHash ==
        (if i.write != Committed then s.caHash
         else if r.caHash == "" then ""
         else if Serves(r.workload) && (Shortcut(s, r) || Answers(r)) then r.caHash
         else s.caHash)
  {
    if i.path.Endpoint? {
      var r := i.path.reached;
      var h := DoHandshake(s.server.value, s.caHash, r, WorkloadAvailability(s.server.value, r, i.now), i.now);
      HandshakeByCase(s, i, r);
      EndpointMemory(s, i, r, h);
    }
  }

  // ---- The other conditions ----

  predicate GatewayRegisters(g: GatewayRead) {
    && g.BindingRead? && HoldsTrue(g.conditions, Registered)
    && Find(g.conditions, Registered).value.observedGeneration >= g.generation
  }

  predicate Shows(cs: seq<Condition>, t: ConditionType, status: Status, reason: Reason, generation: int) {
    var c := Find(cs, t);
    && c.Some? && c.value.status == status && c.value.reason == reason && c.value.observedGeneration == generation
  }

  predicate ShowsReport(cs: seq<Condition>, t: ConditionType, r: Report, generation: int) {
    Shows(cs, t, r.status, r.reason, generation) && Find(cs, t).value.message == r.message
  }

  lemma GatewayReadBy(g: GatewayRead)
    ensures var gw := ReadGateway(g);
      && (g.NoGateway? <==> gw.None?)
      && (gw.Some? ==>
            && gw.value.report.status == (if GatewayRegisters(g) then StatusTrue else StatusFalse)
            && gw.value.report.reason ==
                 (if g.BindingMissing? then BindingNotFound
                  else if GatewayRegisters(g) then IsGatewayRegistered
                  else GatewayNotRegistered))
  {
  }

  /** The gateway condition: there exactly with a gateway, and True exactly when its registration is current. */
  lemma GatewayConditions(s: State, i: Input, r: Reached)
    requires s.server.Some? && i.path == Endpoint(r)
    ensures Step(s, i).applied.Some?
    ensures var cs, g := Step(s, i).applied.value.conditions, s.server.value.generation;
      && (r.gateway.NoGateway? ==> Find(cs, GatewayRegistered) == None)
      && (r.gateway.BindingMissing? ==> Shows(cs, GatewayRegistered, StatusFalse, BindingNotFound, g))
      && (GatewayRegisters(r.gateway) ==> Shows(cs, GatewayRegistered, StatusTrue, IsGatewayRegistered, g))
      && (!r.gateway.NoGateway? && !r.gateway.BindingMissing? && !GatewayRegisters(r.gateway) ==>
            Shows(cs, GatewayRegistered, StatusFalse, GatewayNotRegistered, g))
  {
    GatewayReadBy(r.gateway);
    EndpointStatus(s, i, r);
  }

  /** Available is the workload's own verdict, unless a gateway that is not registered withdraws it. */
  lemma AvailableCondition(s: State, i: Input, r: Reached)
    requires s.server.Some? && i.path == Endpoint(r)
    ensures Step(s, i).applied.Some?
    ensures var cs, g := Step(s, i).applied.value.conditions, s.server.value.generation;
      var verdict := AvailableVerdict(r.workload);
      if r.gateway.NoGateway? || GatewayRegisters(r.gateway) || verdict.status == StatusFalse
      then ShowsReport(cs, Available, Report(verdict.status, verdict.reason, r.availableText), g)
      else Shows(cs, Available, StatusFalse, GatewayNotRegistered, g)
  {
    GatewayReadBy(r.gateway);
    EndpointStatus(s, i, r);
  }

  /** The published address and binding name. */
  lemma AddressExact(s: State, i: Input, r: Reached)
    requires s.server.Some? && i.path == Endpoint(r)
    ensures Step(s, i).applied.Some?
    ensures var p := Step(s, i).applied.value;
      && p.address ==
           (if !(Serves(r.workload) && (Shortcut(s, r) || Answers(r))) then None
            else if GatewayRegisters(r.gateway) && r.gateway.url != "" then Some(r.gateway.url)
            else Some(r.clusterURL))
      && p.gatewayBinding == (if r.gateway.BindingRead? then Some(r.gateway.name) else None)
      && p.observedGeneration == s.server.value.generation
  {
    VerifiedExact(s, i, r);
    EndpointAddress(s, i, r);
  }

  lemma EndpointAddress(s: State, i: Input, r: Reached)
    requires s.server.Some? && i.path == Endpoint(r)
    ensures var p := Step(s, i).applied.value;
      && Step(s, i).applied.Some?
      && (p.address.Some? <==> HoldsTrue(p.conditions, Verified))
      && (p.address.Some? ==>
            var registered := GatewayRegisters(r.gateway) && r.gateway.url != "";
            p.address.value == if registered then r.gateway.url else r.clusterURL)
      && p.gatewayBinding == (if r.gateway.BindingRead? then Some(r.gateway.name) else None)
      && p.observedGeneration == s.server.value.generation
  {
    EndpointStatus(s, i, r);
  }

  lemma ListedOthers(
    accepted: Condition, available: Condition, verified: Condition, gateway: Option<Condition>,
    posture: Option<Condition>, policy: Condition)
    requires accepted.ctype == Accepted && available.ctype == Available && verified.ctype == Verified
    requires policy.ctype == PolicyEnforced
    requires gateway.Some? ==> gateway.value.ctype == GatewayRegistered
    requires posture.Some? ==> posture.value.ctype == NetworkPolicyRestricted
    ensures var cs := [accepted, available, verified] + Optional(gateway) + Optional(posture) + [policy];
      && Find(cs, Accepted) == Some(accepted) && Find(cs, PolicyEnforced) == Some(policy)
      && Find(cs, NetworkPolicyRestricted) == posture
  {
    var cs := [accepted, available, verified] + Optional(gateway) + Optional(posture) + [policy];
    ListedUnique(accepted, available, verified, gateway, posture, policy);
    FindUnique(cs, 0);
    FindUnique(cs, |cs| - 1);
    if posture.Some? {
      FindUnique(cs, |cs| - 2);
    }
    FindMember(cs, NetworkPolicyRestricted);
  }

  lemma AssembledOthers(
    server: Server, r: Reached, gw: Option<GatewayStatus>, available: Condition, verified: Condition,
    info: Option<Info>, policy: Report, now: int)
    requires available.ctype == Available && verified.ctype == Verified
    ensures var cs := Assemble(server, r, gw, available, verified, info, policy, now).conditions;
      && Find(cs, Accepted) == Some(Stamp(Accepted, ACCEPTED, server, now))
      && Find(cs, PolicyEnforced) == Some(Stamp(PolicyEnforced, policy, server, now))
      && Find(cs, NetworkPolicyRestricted) == StampOptional(NetworkPolicyRestricted, r.posture, server, now)
  {
    ListedOthers(
      Stamp(Accepted, ACCEPTED, server, now), OverrideAvailable(server, gw, available, now), verified,
      StampOptional(GatewayRegistered, GatewayReport(gw), server, now),
      StampOptional(NetworkPolicyRestricted, r.posture, server, now), Stamp(PolicyEnforced, policy, server, now));
  }

  /** The informational conditions of an endpoint status: accepted, the posture just computed, the policy report. */
  lemma EndpointOthers(s: State, i: Input, r: Reached)
    requires s.server.Some? && i.path == Endpoint(r)
    ensures Step(s, i).applied.Some?
    ensures var cs, g := Step(s, i).applied.value.conditions, s.server.value.generation;
      && Shows(cs, Accepted, StatusTrue, Valid, g)
      && ShowsReport(cs, PolicyEnforced, i.policy, g)
      && (if r.posture.Some? then ShowsReport(cs, NetworkPolicyRestricted, r.posture.value, g)
          else Find(cs, NetworkPolicyRestricted) == None)
  {
    var server := s.server.value;
    var e := ReconcileEndpoint(server, s.retry, s.caHash, r, i.policy, i.now);
    AssembledOthers(
      server, r, ReadGateway(r.gateway), WorkloadAvailability(server, r, i.now), e.book.verified, e.handshake.info,
      i.policy, i.now);
    assert Step(s, i).applied == Some(e.status);
  }

  /** A failure status by type: what is reported, what is withdrawn and what is carried over. */
  lemma FailureConditions(
    server: Server, accepted: Report, available: Report, posture: Option<Report>, policy: Report, now: int)
    ensures var p, g := FailureStatus(server, accepted, available, posture, policy, now), server.generation;
      && ShowsReport(p.conditions, Accepted, accepted, g) && ShowsReport(p.conditions, Available, available, g)
      && Shows(p.conditions, Verified, StatusUnknown, NotVerified, g)
      && ShowsReport(p.conditions, PolicyEnforced, policy, g)
      && p.address == None && p.serverInfo == None && p.observedGeneration == g
      && p.gatewayBinding == server.status.gatewayBinding
  {
    var cs := FailureStatus(server, accepted, available, posture, policy, now).conditions;
    FailureUnique(server, accepted, available, posture, policy, now);
    FindUnique(cs, 0);
    FindUnique(cs, 1);
    FindUnique(cs, 2);
    FindUnique(cs, 3);
  }

  lemma FailureCarries(
    server: Server, accepted: Report, available: Report, posture: Option<Report>, policy: Report, now: int)
    ensures var cs := FailureStatus(server, accepted, available, posture, policy, now).conditions;
      Find(cs, GatewayRegistered) == Find(server.status.conditions, GatewayRegistered)
  {
    var cs := FailureStatus(server, accepted, available, posture, policy, now).conditions;
    FailureUnique(server, accepted, available, posture, policy, now);
    if Find(server.status.conditions, GatewayRegistered).Some? {
      FindUnique(cs, 4);
    }
    FindMember(cs, GatewayRegistered);
  }

  lemma FailurePosture(
    server: Server, accepted: Report, available: Report, posture: Option<Report>, policy: Report, now: int)
    ensures var cs := FailureStatus(server, accepted, available, posture, policy, now).conditions;
      && (posture.Some? ==> ShowsReport(cs, NetworkPolicyRestricted, posture.value, server.generation))
      && (posture.None? ==>
            Find(cs, NetworkPolicyRestricted) == Find(server.status.conditions, NetworkPolicyRestricted))
  {
    var cs := FailureStatus(server, accepted, available, posture, policy, now).conditions;
    FailureUnique(server, accepted, available, posture, policy, now);
    if posture.Some? || Find(server.status.conditions, NetworkPolicyRestricted).Some? {
      FindUnique(cs, |cs| - 1);
    }
    FindMember(cs, NetworkPolicyRestricted);
  }

  /** What both failure paths withdraw and carry over. */
  predicate Withdrawn(p: Published, server: Server) {
    && Shows(p.conditions, Verified, StatusUnknown, NotVerified, server.generation)
    && p.address == None && p.serverInfo == None && p.gatewayBinding == server.status.gatewayBinding
    && Find(p.conditions, GatewayRegistered) == Find(server.status.conditions, GatewayRegistered)
  }

  /**
   An invalid configuration: the violated rule in Accepted, Available withdrawn for it, Verified
   unknown, no address, the gateway condition and the last known posture carried over.
   */
  lemma InvalidReports(s: State, i: Input)
    requires s.server.Some? && i.path.InvalidConfig?
    ensures Step(s, i).applied.Some?
    ensures var p, server := Step(s, i).applied.value, s.server.value;
      && ShowsReport(p.conditions, Accepted, Report(StatusFalse, i.path.reason, i.path.text), server.generation)
      && Shows(p.conditions, Available, StatusFalse, ConfigurationInvalid, server.generation)
      && ShowsReport(p.conditions, PolicyEnforced, i.policy, server.generation)
      && Withdrawn(p, server)
      && Find(p.conditions, NetworkPolicyRestricted) == Find(server.status.conditions, NetworkPolicyRestricted)
  {
    var accepted := Report(StatusFalse, i.path.reason, i.path.text);
    FailureConditions(s.server.value, accepted, MUST_FIX, None, i.policy, i.now);
    FailureCarries(s.server.value, accepted, MUST_FIX, None, i.policy, i.now);
    FailurePosture(s.server.value, accepted, MUST_FIX, None, i.policy, i.now);
  }

  /** A failed resource: its own reason in Available, and the posture of this pass if there is one. */
  lemma FailureReports(s: State, i: Input)
    requires s.server.Some? && i.path.ResourceFailed? && i.path.cause != UpdateConflict
    ensures Step(s, i).applied.Some?
    ensures var p, server := Step(s, i).applied.value, s.server.value;
      var reason :=
        match i.path.resource
        case DeploymentResource => WorkloadUnavailable
        case ServiceResource => OtherReason("ServiceUnavailable")
        case NetworkPolicyResource => OtherReason("NetworkPolicyUnavailable")
        case BindingResource => GatewayNotRegistered;
      && Shows(p.conditions, Accepted, StatusTrue, Valid, server.generation)
      && ShowsReport(p.conditions, Available, Report(StatusFalse, reason, i.path.text), server.generation)
      && Withdrawn(p, server)
      && (i.path.freshPosture.Some? ==>
            ShowsReport(p.conditions, NetworkPolicyRestricted, i.path.freshPosture.value, server.generation))
  {
    var available := Report(StatusFalse, UnavailableReason(i.path.resource), i.path.text);
    FailureConditions(s.server.value, ACCEPTED, available, i.path.freshPosture, i.policy, i.now);
    FailureCarries(s.server.value, ACCEPTED, available, i.path.freshPosture, i.policy, i.now);
    FailurePosture(s.server.value, ACCEPTED, available, i.path.freshPosture, i.policy, i.now);
  }

  /** A deleted server is forgotten: whatever was remembered, nothing is and nothing more is asked for. */
  lemma DeletedForgotten(s: State, i: Input)
    requires s.server.None?
    ensures Step(s, i).state == State(None, None, "") && Step(s, i).requeue == Done && Step(s, i).applied == None
  {
  }

  /** A status is applied exactly on these paths, and stored unless the write is rejected. */
  lemma StatusWritten(s: State, i: Input)
    requires s.server.Some?
    ensures Step(s, i).applied.Some? <==>
      i.path.InvalidConfig? || i.path.Endpoint? || (i.path.ResourceFailed? && i.path.cause != UpdateConflict)
    ensures Step(s, i).state.server ==
      if Step(s, i).applied.Some? && i.write != Rejected
      then Some(s.server.value.(status := Step(s, i).applied.value)) else s.server
  {
  }
}
