/**
 One reconcile of an MCPServer as seen from its status: handshake, retry bookkeeping,
 gateway override, status assembly, the write, the CA bundle hash and the requeue.
 */
module Reconcile {
  import opened Wrappers
  import opened Conditions
  import opened Availability

  // ---- State ----

  datatype Info = Info(text: string)

  datatype Published = Published(
    observedGeneration: int,
    conditions: seq<Condition>,
    address: Option<string>,
    serverInfo: Option<Info>,
    gatewayBinding: Option<string>)

  const UNPUBLISHED := Published(0, [], None, None, None)

  datatype Server = Server(uid: nat, generation: int, status: Published)

  /** handshakeRetryState; the count is a 32-bit integer. */
  datatype Retry = Retry(generation: int, count: int)

  /** What the operator holds about one server: the stored object and its two in-memory entries. */
  datatype State = State(server: Option<Server>, retry: Option<Retry>, caHash: string)

  // ---- What a reconcile observes ----

  datatype Dial = Success(info: Option<Info>) | AuthError | Refused(text: string)
  datatype TLSTransport = TLSReady | TLSBroken(text: string)

  datatype GatewayRead =
    | NoGateway
    | BindingMissing
    | BindingUnreadable(text: string)
    | BindingRead(name: string, generation: int, conditions: seq<Condition>, url: string)

  /** A condition to be stamped: its verdict without generation and time. */
  datatype Report = Report(status: Status, reason: Reason, message: string)

  datatype Reached = Reached(
    workload: Workload,
    availableText: string,
    clusterURL: string,
    caHash: string,
    tls: TLSTransport,
    dial: Dial,
    gateway: GatewayRead,
    posture: Option<Report>)

  /** The resource whose reconciliation failed, and why. */
  datatype Resource = DeploymentResource | ServiceResource | NetworkPolicyResource | BindingResource
  datatype Cause = UpdateConflict | OwnershipConflict | ApiError

  /** How far a reconcile gets: the object is going away, a read fails, or one of the four outcomes with a status. */
  datatype Path =
    | Terminating
    | Transient
    | InvalidConfig(reason: Reason, text: string)
    | ResourceFailed(resource: Resource, text: string, freshPosture: Option<Report>, cause: Cause)
    | Endpoint(reached: Reached)

  /** A status write may fail, or be stored although the client sees an error. */
  datatype Write = Committed | Rejected | HalfCommitted

  datatype Input = Input(now: int, path: Path, policy: Report, write: Write)

  // ---- What a reconcile does ----

  /** The handshake events of one reconcile: at most one failure, then at most one exhaustion. */
  datatype Events = Events(failed: Option<string>, exhausted: Option<int>)
  const NO_EVENTS := Events(None, None)
  datatype Action = NotAttempted | Skipped | BrokenTLS | Dialed
  datatype Requeue = Done | After(seconds: int) | WithError

  const REQUEUE_DELAY := 10
  const MAX_REQUEUE_DELAY := 120
  const MAX_RETRIES := 10
  const CONFLICT_DELAY := 1

  function Stamp(t: ConditionType, r: Report, server: Server, now: int): (c: Condition)
    ensures c.ctype == t && c.status == r.status && c.reason == r.reason && c.message == r.message
  {
    Preserved(Condition(t, r.status, r.reason, r.message, server.generation, now), server.status.conditions)
  }

  const NOT_ATTEMPTED := Report(StatusUnknown, NotVerified, "Handshake has not been attempted")
  const SUCCEEDED := Report(StatusTrue, HandshakeVerified, "MCP handshake succeeded")
  const UNAUTHENTICATED := Report(
    StatusTrue, AuthSkipped, "Endpoint reachable but MCP protocol not verified: requires authentication")
  const ACCEPTED := Report(StatusTrue, Valid, "Configuration is valid")

  datatype Handshake = Handshake(verified: Condition, info: Option<Info>, action: Action)

  predicate AlreadyVerified(server: Server, previousHash: string, caHash: string) {
    var existing := Find(server.status.conditions, Verified);
    && existing.Some? && existing.value.status == StatusTrue
    && server.status.observedGeneration == server.generation
    && server.status.serverInfo.Some?
    && previousHash == caHash
  }

  /** reconcileHandshake. */
  function DoHandshake(server: Server, previousHash: string, r: Reached, available: Condition, now: int): (h: Handshake)
    ensures h.verified.ctype == Verified
    ensures h.verified.status == StatusTrue ==> h.action == Dialed || h.action == Skipped
    ensures h.action == Skipped ==>
      && AlreadyVerified(server, previousHash, r.caHash)
      && h.info == server.status.serverInfo && h.verified.status == StatusTrue
    ensures h.action == Dialed ==> !AlreadyVerified(server, previousHash, r.caHash)
  {
    if available.status != StatusTrue || available.reason != WorkloadAvailable then
      Handshake(Stamp(Verified, NOT_ATTEMPTED, server, now), None, NotAttempted)
    else if AlreadyVerified(server, previousHash, r.caHash) then
      Handshake(Find(server.status.conditions, Verified).value, server.status.serverInfo, Skipped)
    else if r.tls.TLSBroken? then
      Handshake(Stamp(Verified, Report(StatusFalse, EndpointUnavailable, r.tls.text), server, now), None, BrokenTLS)
    else match r.dial
      case AuthError => Handshake(Stamp(Verified, UNAUTHENTICATED, server, now), Some(Info("")), Dialed)
      case Refused(text) =>
        Handshake(Stamp(Verified, Report(StatusFalse, EndpointUnavailable, text), server, now), None, Dialed)
      case Success(info) => Handshake(Stamp(Verified, SUCCEEDED, server, now), info, Dialed)
  }

  /** int32 addition of one. */
  function Next32(n: int): int {
    if n == 0x7fff_ffff then -0x8000_0000 else n + 1
  }

  const EXHAUSTED_NOTE :=
    " Automatic retries exhausted after 10 attempts; not retrying until the spec or CA bundle changes."

  function Note(text: string, count: int): string {
    if count >= MAX_RETRIES then text + EXHAUSTED_NOTE else text
  }

  predicate AlreadyReported(server: Server, message: string) {
    var prev := Find(server.status.conditions, Verified);
    prev.Some? && prev.value.status == StatusFalse && prev.value.reason == EndpointUnavailable
      && prev.value.message == message
  }

  datatype Bookkeeping = Bookkeeping(retry: Option<Retry>, verified: Condition, count: int, events: Events)

  /** reconcileHandshakeEventsAndRetryCount. */
  function CountRetry(server: Server, retry: Option<Retry>, verified: Condition): (b: Bookkeeping)
    ensures b.verified == verified.(message := b.verified.message)
  {
    if verified.reason != EndpointUnavailable then Bookkeeping(None, verified, 0, NO_EVENTS)
    else
      var prev := if retry.Some? && retry.value.generation == server.generation then retry.value.count else 0;
      var count := Next32(prev);
      var message := Note(verified.message, count);
      var failed := if AlreadyReported(server, message) then None else Some(verified.message);
      var exhausted := if count >= MAX_RETRIES && prev < MAX_RETRIES then Some(count) else None;
      Bookkeeping(Some(Retry(server.generation, count)), verified.(message := message), count,
        Events(failed, exhausted))
  }

  /** The delay after a number of doublings, as a closed formula. */
  function Doubled(n: nat): int {
    if n == 0 then REQUEUE_DELAY else 2 * Doubled(n - 1)
  }

  function Backoff(retryCount: int): int {
    if retryCount <= 0 then REQUEUE_DELAY
    else if Doubled(retryCount) > MAX_REQUEUE_DELAY then MAX_REQUEUE_DELAY
    else Doubled(retryCount)
  }

  lemma {:induction false} DoubledGrows(m: nat, n: nat)
    requires m <= n
    ensures Doubled(m) <= Doubled(n) && Doubled(m) >= REQUEUE_DELAY
    decreases n
  {
    if m < n {
      DoubledGrows(m, n - 1);
    } else if m > 0 {
      DoubledGrows(m - 1, m - 1);
    }
  }

  /** mcpHandshakeBackoff: double until the cap is passed. */
  method HandshakeBackoff(retryCount: int) returns (delay: int)
    ensures delay == Backoff(retryCount)
  {
    delay := REQUEUE_DELAY;
    var i := 0;
    while i < retryCount
      invariant 0 <= i && (i <= retryCount || i == 0) && delay == Doubled(i) && delay <= MAX_REQUEUE_DELAY
    {
      delay := delay * 2;
      if delay > MAX_REQUEUE_DELAY {
        DoubledGrows(i + 1, retryCount);
        return MAX_REQUEUE_DELAY;
      }
      i := i + 1;
    }
  }

  /** handshakeRequeue; the count is 1-based. */
  function HandshakeRequeue(verified: Condition, count: int): Option<Requeue> {
    if verified.status != StatusFalse || verified.reason != EndpointUnavailable then None
    else if count >= MAX_RETRIES then Some(Done)
    else Some(After(Backoff(count - 1)))
  }

  // ---- Gateway ----

  datatype GatewayStatus = GatewayStatus(report: Report, binding: Option<string>, address: string, failed: bool)

  /** reconcileGatewayCondition: registered means True for the binding's current generation. */
  function ReadGateway(g: GatewayRead): Option<GatewayStatus> {
    match g
    case NoGateway => None
    case BindingMissing =>
      Some(GatewayStatus(Report(StatusFalse, BindingNotFound, "MCPGatewayBinding not found"), None, "", false))
    case BindingUnreadable(text) => Some(GatewayStatus(Report(StatusFalse, GatewayNotRegistered, text), None, "", true))
    case BindingRead(name, generation, conditions, url) =>
      var registered := Find(conditions, Registered);
      if registered.None? || registered.value.status != StatusTrue
        || registered.value.observedGeneration < generation then
        var msg := if registered.Some? then registered.value.message
          else "Waiting for gateway integration controller to register binding";
        Some(GatewayStatus(Report(StatusFalse, GatewayNotRegistered, msg), Some(name), "", false))
      else
        Some(GatewayStatus(Report(StatusTrue, IsGatewayRegistered, "Gateway integration is active"), Some(name), url,
          false))
  }

  /** applyGatewayStatus: an unregistered gateway withdraws availability. */
  function OverrideAvailable(server: Server, gw: Option<GatewayStatus>, available: Condition, now: int): (c: Condition)
    requires available.ctype == Available
    ensures c.ctype == Available
  {
    if gw.Some? && gw.value.report.status != StatusTrue && available.status != StatusFalse
    then Stamp(Available, Report(StatusFalse, GatewayNotRegistered, gw.value.report.message), server, now)
    else available
  }

  function OverrideURL(gw: Option<GatewayStatus>, clusterURL: string): string {
    if gw.Some? && gw.value.address != "" then gw.value.address else clusterURL
  }

  // ---- The applied status ----

  function Optional(c: Option<Condition>): seq<Condition> {
    if c.Some? then [c.value] else []
  }

  function StampOptional(t: ConditionType, r: Option<Report>, server: Server, now: int): Option<Condition> {
    if r.Some? then Some(Stamp(t, r.value, server, now)) else None
  }

  datatype EndpointResult = EndpointResult(status: Published, handshake: Handshake, book: Bookkeeping,
    gatewayFailed: bool)

  function GatewayReport(gw: Option<GatewayStatus>): Option<Report> {
    if gw.Some? then Some(gw.value.report) else None
  }

  /** The status of a reconcile that reached the endpoint. */
  function Assemble(
    server: Server, r: Reached, gw: Option<GatewayStatus>, available: Condition, verified: Condition,
    info: Option<Info>, policy: Report, now: int): Published
    requires available.ctype == Available
  {
    Published(
      server.generation,
      [Stamp(Accepted, ACCEPTED, server, now), OverrideAvailable(server, gw, available, now), verified]
      + Optional(StampOptional(GatewayRegistered, GatewayReport(gw), server, now))
      + Optional(StampOptional(NetworkPolicyRestricted, r.posture, server, now))
      + [Stamp(PolicyEnforced, policy, server, now)],
      if verified.status == StatusTrue then Some(OverrideURL(gw, r.clusterURL)) else None,
      info,
      if gw.Some? then gw.value.binding else None)
  }

  function WorkloadAvailability(server: Server, r: Reached, now: int): (c: Condition)
    ensures c.ctype == Available
  {
    var verdict := AvailableVerdict(r.workload);
    Stamp(Available, Report(verdict.status, verdict.reason, r.availableText), server, now)
  }

  /** reconcileEndpoint up to the status write. */
  function ReconcileEndpoint(
    server: Server, retry: Option<Retry>, previousHash: string, r: Reached, policy: Report, now: int): EndpointResult {
    var available := WorkloadAvailability(server, r, now);
    var hs := DoHandshake(server, previousHash, r, available, now);
    var book := CountRetry(server, retry, hs.verified);
    var gw := ReadGateway(r.gateway);
    EndpointResult(
      Assemble(server, r, gw, available, book.verified, hs.info, policy, now), hs, book, gw.Some? && gw.value.failed)
  }

  /** The status of every failure path: Verified unknown, no address, persistent conditions carried. */
  function FailureStatus(
    server: Server, accepted: Report, available: Report, posture: Option<Report>, policy: Report, now: int): Published {
    var stored := server.status.conditions;
    var carriedPosture := if posture.Some? then StampOptional(NetworkPolicyRestricted, posture, server, now)
      else Find(stored, NetworkPolicyRestricted);
    Published(
      server.generation,
      [Stamp(Accepted, accepted, server, now), Stamp(Available, available, server, now),
        Stamp(Verified, NOT_ATTEMPTED, server, now),
       Stamp(PolicyEnforced, policy, server, now)]
      + Optional(Find(stored, GatewayRegistered))
      + Optional(carriedPosture),
      None, None, server.status.gatewayBinding)
  }

  const MUST_FIX := Report(StatusFalse, ConfigurationInvalid, "Configuration must be fixed before server can start")

  function UnavailableReason(resource: Resource): Reason {
    match resource
    case DeploymentResource => WorkloadUnavailable
    case ServiceResource => OtherReason("ServiceUnavailable")
    case NetworkPolicyResource => OtherReason("NetworkPolicyUnavailable")
    case BindingResource => GatewayNotRegistered
  }

  function InvalidStatus(server: Server, reason: Reason, text: string, policy: Report, now: int): Published {
    FailureStatus(server, Report(StatusFalse, reason, text), MUST_FIX, None, policy, now)
  }

  function UnavailableStatus(
    server: Server, resource: Resource, text: string, posture: Option<Report>, policy: Report, now: int): Published {
    FailureStatus(server, ACCEPTED, Report(StatusFalse, UnavailableReason(resource), text), posture, policy, now)
  }

  datatype Result = Result(
    state: State,
    requeue: Requeue,
    events: Events,
    applied: Option<Published>,
    handshake: Option<Handshake>)

  function Store(s: State, status: Published, write: Write): State
    requires s.server.Some?
  {
    if write == Rejected then s else s.(server := Some(s.server.value.(status := status)))
  }

  /** updateTLSCABundleHash, reached only after an acknowledged write. */
  function UpdateHash(previous: string, hash: string, verified: Condition): string {
    if hash == "" then "" else if verified.status == StatusTrue then hash else previous
  }

  /** One call of Reconcile. */
  function Step(s: State, i: Input): Result {
    if s.server.None? then Result(State(None, None, ""), Done, NO_EVENTS, None, None)
    else
      var server := s.server.value;
      match i.path
      case Terminating => Result(s, Done, NO_EVENTS, None, None)
      case Transient => Result(s, WithError, NO_EVENTS, None, None)
      case InvalidConfig(reason, text) =>
        var status := InvalidStatus(server, reason, text, i.policy, i.now);
        var requeue := if i.write == Committed then Done else WithError;
        Result(Store(s, status, i.write), requeue, NO_EVENTS, Some(status), None)
      case ResourceFailed(resource, text, freshPosture, cause) =>
        if cause == UpdateConflict then Result(s, After(CONFLICT_DELAY), NO_EVENTS, None, None)
        else
          var status := UnavailableStatus(server, resource, text, freshPosture, i.policy, i.now);
          var requeue := if i.write == Committed && cause == OwnershipConflict then Done else WithError;
          Result(Store(s, status, i.write), requeue, NO_EVENTS, Some(status), None)
      case Endpoint(r) =>
        var e := ReconcileEndpoint(server, s.retry, s.caHash, r, i.policy, i.now);
        var s1 := Store(s.(retry := e.book.retry), e.status, i.write);
        if i.write != Committed then
          Result(s1, WithError, e.book.events, Some(e.status), Some(e.handshake))
        else
          var requeue := HandshakeRequeue(e.book.verified, e.book.count);
          Result(s1.(caHash := UpdateHash(s.caHash, r.caHash, e.book.verified)),
                 if requeue.Some? then requeue.value else if e.gatewayFailed then WithError else Done,
                 e.book.events, Some(e.status), Some(e.handshake))
  }

  /** The gateway override and the status object, built step by step. */
  method BuildStatus(
    server: Server, r: Reached, gw: Option<GatewayStatus>, available: Condition, verified: Condition,
    info: Option<Info>, policy: Report, now: int) returns (status: Published)
    requires available.ctype == Available
    ensures status == Assemble(server, r, gw, available, verified, info, policy, now)
  {
    var url := OverrideURL(gw, r.clusterURL);
    status := Published(
      server.generation,
        [Stamp(Accepted, ACCEPTED, server, now), OverrideAvailable(server, gw, available, now), verified],
      None, info, None);
    if gw.Some? {
      status := status.(conditions := status.conditions + [Stamp(GatewayRegistered, gw.value.report, server, now)],
                        gatewayBinding := gw.value.binding);
    }
    if r.posture.Some? {
      status := status.(conditions := status.conditions
        + [Stamp(NetworkPolicyRestricted, r.posture.value, server, now)]);
    }
    status := status.(conditions := status.conditions + [Stamp(PolicyEnforced, policy, server, now)]);
    if verified.status == StatusTrue {
      status := status.(address := Some(url));
    }
  }

  // ---- The reconciler as the source keeps it: two maps beside the object store ----

  type Key = string

  class MCPServerReconciler {
    var servers: map<Key, Server>
    var handshakeRetries: map<Key, Retry>
    var tlsCABundleHashes: map<Key, string>

    constructor (servers: map<Key, Server>)
      ensures this.servers == servers && handshakeRetries == map[] && tlsCABundleHashes == map[]
    {
      this.servers := servers;
      handshakeRetries, tlsCABundleHashes := map[], map[];
    }

    /** A missing hash reads as the empty string. */
    function View(k: Key): State
      reads this
    {
      State(if k in servers then Some(servers[k]) else None,
            if k in handshakeRetries then Some(handshakeRetries[k]) else None,
            if k in tlsCABundleHashes then tlsCABundleHashes[k] else "")
    }

    /** Nothing about the other servers changes. */
    twostate predicate OthersUnchanged(k: Key)
      reads this
    {
      forall j :: j != k ==> View(j) == old(View(j))
    }

    method SetRetry(k: Key, retry: Option<Retry>)
      modifies this`handshakeRetries
      ensures View(k) == old(View(k)).(retry := retry)
      ensures OthersUnchanged(k)
    {
      if retry.Some? {
        handshakeRetries := handshakeRetries[k := retry.value];
      } else {
        handshakeRetries := handshakeRetries - {k};
      }
    }

    method SetHash(k: Key, hash: string)
      modifies this`tlsCABundleHashes
      ensures View(k) == old(View(k)).(caHash := hash)
      ensures OthersUnchanged(k)
    {
      if hash == "" {
        tlsCABundleHashes := tlsCABundleHashes - {k};
      } else {
        tlsCABundleHashes := tlsCABundleHashes[k := hash];
      }
    }

    /** A deleted server leaves nothing behind in memory. */
    method Forget(k: Key)
      requires k !in servers
      modifies this`tlsCABundleHashes, this`handshakeRetries
      ensures View(k) == State(None, None, "")
      ensures OthersUnchanged(k)
    {
      SetHash(k, "");
      SetRetry(k, None);
    }

    /** Status().Apply under a single forced field manager replaces the status it applied before. */
    method ApplyStatus(k: Key, status: Published, write: Write) returns (ok: bool)
      requires k in servers
      modifies this`servers
      ensures ok <==> write == Committed
      ensures View(k) == Store(old(View(k)), status, write)
      ensures OthersUnchanged(k)
      ensures k in servers
    {
      if write != Rejected {
        servers := servers[k := servers[k].(status := status)];
      }
      ok := write == Committed;
    }

    /** reconcileHandshakeEventsAndRetryCount: the retry entry is replaced or dropped. */
    method TrackRetries(k: Key, hs: Handshake) returns (verified: Condition, count: int, events: Events)
      requires k in servers
      modifies this`handshakeRetries
      ensures var b := CountRetry(servers[k], old(View(k)).retry, hs.verified);
        && verified == b.verified && count == b.count && events == b.events
        && View(k) == old(View(k)).(retry := b.retry)
      ensures OthersUnchanged(k)
    {
      verified, count, events := hs.verified, 0, NO_EVENTS;
      if verified.reason != EndpointUnavailable {
        SetRetry(k, None);
        return;
      }
      var prev := 0;
      if k in handshakeRetries && handshakeRetries[k].generation == servers[k].generation {
        prev := handshakeRetries[k].count;
      }
      count := Next32(prev);
      SetRetry(k, Some(Retry(servers[k].generation, count)));
      var base := verified.message;
      if count >= MAX_RETRIES {
        verified := verified.(message := base + EXHAUSTED_NOTE);
      }
      if !AlreadyReported(servers[k], verified.message) {
        events := events.(failed := Some(base));
      }
      if count >= MAX_RETRIES && prev < MAX_RETRIES {
        events := events.(exhausted := Some(count));
      }
    }

    /** reconcileEndpoint: handshake, gateway override, one status built step by step, write, hash, requeue. */
    method PublishEndpoint(k: Key, r: Reached, i: Input) returns (requeue: Requeue, events: Events)
      requires k in servers && i.path == Endpoint(r)
      modifies this
      ensures View(k) == Step(old(View(k)), i).state
      ensures requeue == Step(old(View(k)), i).requeue && events == Step(old(View(k)), i).events
      ensures OthersUnchanged(k)
    {
      var server := servers[k];
      var available := WorkloadAvailability(server, r, i.now);
      var hs := DoHandshake(server, View(k).caHash, r, available, i.now);
      var verified, count;
      verified, count, events := TrackRetries(k, hs);
      var gw := ReadGateway(r.gateway);
      var status := BuildStatus(server, r, gw, available, verified, hs.info, i.policy, i.now);
      var ok := ApplyStatus(k, status, i.write);
      if !ok {
        return WithError, events;
      }
      SetHash(k, UpdateHash(View(k).caHash, r.caHash, verified));
      var again := HandshakeRequeue(verified, count);
      requeue := if again.Some? then again.value else if gw.Some? && gw.value.failed then WithError else Done;
    }

    /** reconcilePermanentValidationError. */
    method PublishInvalid(k: Key, i: Input) returns (requeue: Requeue)
      requires k in servers && i.path.InvalidConfig?
      modifies this`servers
      ensures View(k) == Step(old(View(k)), i).state
      ensures requeue == Step(old(View(k)), i).requeue && Step(old(View(k)), i).events == NO_EVENTS
      ensures OthersUnchanged(k)
    {
      var status := InvalidStatus(servers[k], i.path.reason, i.path.text, i.policy, i.now);
      var ok := ApplyStatus(k, status, i.write);
      requeue := if ok then Done else WithError;
    }

    /**
     handleResourceFailure and handleDeploymentReconcileError: an update conflict is retried
     without touching the status, and an ownership conflict is reported but not retried.
     */
    method PublishResourceFailure(k: Key, i: Input) returns (requeue: Requeue)
      requires k in servers && i.path.ResourceFailed?
      modifies this`servers
      ensures View(k) == Step(old(View(k)), i).state
      ensures requeue == Step(old(View(k)), i).requeue && Step(old(View(k)), i).events == NO_EVENTS
      ensures OthersUnchanged(k)
    {
      if i.path.cause == UpdateConflict {
        return After(CONFLICT_DELAY);
      }
      var status := UnavailableStatus(servers[k], i.path.resource, i.path.text, i.path.freshPosture, i.policy, i.now);
      var ok := ApplyStatus(k, status, i.write);
      if !ok {
        return WithError;
      }
      requeue := if i.path.cause == OwnershipConflict then Done else WithError;
    }

    /** Reconcile: phases in order, with the in-memory entries changed where the source changes them. */
    method Reconcile(k: Key, i: Input) returns (requeue: Requeue, events: Events)
      modifies this
      ensures View(k) == Step(old(View(k)), i).state
      ensures requeue == Step(old(View(k)), i).requeue && events == Step(old(View(k)), i).events
      ensures OthersUnchanged(k)
    {
      requeue, events := Done, NO_EVENTS;
      if k !in servers {
        Forget(k);
        return;
      }
      match i.path {
        case Terminating =>
        case Transient => requeue := WithError;
        case InvalidConfig(_, _) => requeue := PublishInvalid(k, i);
        case ResourceFailed(_, _, _, _) => requeue := PublishResourceFailure(k, i);
        case Endpoint(r) => requeue, events := PublishEndpoint(k, r, i);
      }
    }
  }
}
