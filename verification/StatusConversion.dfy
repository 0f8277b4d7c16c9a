/** What becomes of the statuses the controller publishes when they are stored as v1alpha1. */
module StatusConversion {
  import opened Wrappers
  import opened Conditions
  import opened Availability
  import opened Reconcile
  import opened ReconcileStatus
  import opened ReconcileOutcomes
  import opened ConditionConversion

  lemma AssembledNoReady(
    server: Server, r: Reached, gw: Option<GatewayStatus>, available: Condition, verified: Condition,
    info: Option<Info>, policy: Report, now: int)
    requires available.ctype == Available && verified.ctype == Verified
    ensures NoReady(Assemble(server, r, gw, available, verified, info, policy, now).conditions)
  {
  }

  lemma FailureNoReady(
    server: Server, accepted: Report, available: Report, posture: Option<Report>, policy: Report, now: int)
    ensures NoReady(FailureStatus(server, accepted, available, posture, policy, now).conditions)
  {
  }

  lemma EndpointNoReady(s: State, i: Input, r: Reached)
    requires s.server.Some? && i.path == Endpoint(r)
    ensures Step(s, i).applied.Some? && NoReady(Step(s, i).applied.value.conditions)
  {
    var server := s.server.value;
    var e := ReconcileEndpoint(server, s.retry, s.caHash, r, i.policy, i.now);
    AssembledNoReady(
      server, r, ReadGateway(r.gateway), WorkloadAvailability(server, r, i.now), e.book.verified, e.handshake.info,
      i.policy, i.now);
    assert Step(s, i).applied == Some(e.status);
  }

  lemma EarlyExitNoReady(s: State, i: Input)
    requires s.server.Some? && Step(s, i).applied.Some? && !i.path.Endpoint?
    ensures NoReady(Step(s, i).applied.value.conditions)
  {
    var server := s.server.value;
    if i.path.InvalidConfig? {
      FailureNoReady(server, Report(StatusFalse, i.path.reason, i.path.text), MUST_FIX, None, i.policy, i.now);
    } else {
      var unavailable := Report(StatusFalse, UnavailableReason(i.path.resource), i.path.text);
      FailureNoReady(server, ACCEPTED, unavailable, i.path.freshPosture, i.policy, i.now);
    }
  }

  /** The operator never writes a Ready condition itself. */
  lemma AppliedNoReady(s: State, i: Input)
    requires s.server.Some? && Step(s, i).applied.Some?
    ensures NoReady(Step(s, i).applied.value.conditions)
  {
    if i.path.Endpoint? {
      EndpointNoReady(s, i, i.path.reached);
    } else {
      EarlyExitNoReady(s, i);
    }
  }

  /** A gateway that is not registered withdraws the availability of a serving workload. */
  ghost predicate WithdrawnWhileServing(i: Input) {
    && i.path.Endpoint? && Serves(i.path.reached.workload)
    && !i.path.reached.gateway.NoGateway? && !GatewayRegisters(i.path.reached.gateway)
  }

  lemma EndpointExpressible(s: State, i: Input, r: Reached)
    requires s.server.Some? && i.path == Endpoint(r)
    ensures Step(s, i).applied.Some?
    ensures var cs := Step(s, i).applied.value.conditions;
      && Find(cs, Available).Some? && Find(cs, Verified).Some?
      && (Expressible(Find(cs, Available).value, Find(cs, Verified).value) <==> !WithdrawnWhileServing(i))
  {
    VerdictExact(r.workload);
    AvailableCondition(s, i, r);
    VerifiedExact(s, i, r);
  }

  lemma FailureExpressible(s: State, i: Input)
    requires s.server.Some? && Step(s, i).applied.Some? && !i.path.Endpoint?
    ensures var cs := Step(s, i).applied.value.conditions;
      && Find(cs, Available).Some? && Find(cs, Verified).Some?
      && Expressible(Find(cs, Available).value, Find(cs, Verified).value)
  {
    if i.path.InvalidConfig? {
      InvalidReports(s, i);
    } else {
      FailureReports(s, i);
    }
  }

  /**
   A status the controller publishes keeps the statuses of Available and Verified through
   v1alpha1 and back, except when an unregistered gateway withdrew the availability of a serving
   workload: then the outcome of the handshake is read back as unknown.
   */
  lemma PublishedStatusConverts(s: State, i: Input)
    requires s.server.Some? && Step(s, i).applied.Some?
    ensures var cs := Step(s, i).applied.value.conditions;
      var back := ToHub(FromHub(cs));
      && Find(cs, Available).Some? && Find(cs, Verified).Some?
      && Find(back, Available).Some? && Find(back, Verified).Some?
      && (Find(back, Available).value.status == Find(cs, Available).value.status
          && Find(back, Verified).value.status == Find(cs, Verified).value.status
          <==> !WithdrawnWhileServing(i))
  {
    AppliedStatusSound(s, i);
    AppliedNoReady(s, i);
    if i.path.Endpoint? {
      EndpointExpressible(s, i, i.path.reached);
    } else {
      FailureExpressible(s, i);
    }
    HubStatusRoundTrip(Step(s, i).applied.value.conditions);
  }
}
