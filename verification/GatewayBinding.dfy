/**
 The status of an MCPGatewayBinding, written by two provider controllers that share one
 helper, under resourceVersion checking and with reads that may be stale.
 */
module GatewayBinding {
  import opened Wrappers
  import opened Conditions
  import opened ReconcileStatus
  import opened GatewayProvider
  import Reconcile

  datatype Binding = Binding(
    uid: nat,
    resourceVersion: nat,
    generation: int,
    provider: Provider,
    configRef: string,
    conditions: seq<Condition>,
    url: string)

  // ---- The shared status helper ----

  /** meta.SetStatusCondition: replace in place or append; the time moves with the status. */
  function SetCondition(cs: seq<Condition>, c: Condition): seq<Condition> {
    if cs == [] then [c]
    else if cs[0].ctype == c.ctype then
      [c.(lastTransitionTime := if cs[0].status == c.status then cs[0].lastTransitionTime else c.lastTransitionTime)]
        + cs[1..]
    else [cs[0]] + SetCondition(cs[1..], c)
  }

  lemma {:induction false} SetConditionFind(cs: seq<Condition>, c: Condition, t: ConditionType)
    ensures Find(SetCondition(cs, c), t) == if t == c.ctype then Some(Preserved(c, cs)) else Find(cs, t)
  {
    if cs != [] && cs[0].ctype != c.ctype {
      SetConditionFind(cs[1..], c, t);
      assert SetCondition(cs, c)[1..] == SetCondition(cs[1..], c);
    } else if cs != [] {
      assert SetCondition(cs, c)[1..] == cs[1..];
    }
  }

  lemma {:induction false} SetConditionTypes(cs: seq<Condition>, c: Condition, t: ConditionType)
    ensures HasType(SetCondition(cs, c), t) <==> t == c.ctype || HasType(cs, t)
  {
    SetConditionFind(cs, c, t);
    FindMember(SetCondition(cs, c), t);
    FindMember(cs, t);
  }

  lemma {:induction false} SetConditionUnique(cs: seq<Condition>, c: Condition)
    requires UniqueTypes(cs)
    ensures UniqueTypes(SetCondition(cs, c))
  {
    if cs != [] && cs[0].ctype != c.ctype {
      SetConditionUnique(cs[1..], c);
      var rest := SetCondition(cs[1..], c);
      assert !HasType(cs[1..], cs[0].ctype);
      SetConditionTypes(cs[1..], c, cs[0].ctype);
      forall j | 0 <= j < |rest|
        ensures rest[j].ctype != cs[0].ctype
      {
      }
    }
  }

  datatype Decision = Leave | Write(status: Status, reason: Reason, message: string, url: string)

  /** Nothing to write: the stored status already says this for this generation. */
  predicate Settled(b: Binding, d: Decision)
    requires d.Write?
  {
    var existing := Find(b.conditions, Registered);
    && existing.Some? && existing.value.status == d.status && existing.value.reason == d.reason
    && existing.value.message == d.message && b.url == d.url
    && existing.value.observedGeneration == b.generation
  }

  function WithStatus(b: Binding, d: Decision, now: int): Binding
    requires d.Write?
  {
    b.(conditions := SetCondition(b.conditions,
      Condition(Registered, d.status, d.reason, d.message, b.generation, now)), url := d.url)
  }

  // ---- What the controllers decide ----

  datatype Lookup = Found | NotFound | Failed

  /** A scheme, a host as it appears in a URL authority, and a path. */
  datatype Endpoint = Endpoint(secure: bool, host: string, path: string)

  function URL(e: Endpoint): (s: string)
    ensures s != ""
  {
    (if e.secure then "https" else "http") + "://" + e.host + e.path
  }

  /** The scheme, then the authority, then the path. */
  lemma URLSpells(e: Endpoint)
    ensures var scheme := if e.secure then "https://" else "http://";
      && |URL(e)| == |scheme| + |e.host| + |e.path|
      && URL(e)[..|scheme|] == scheme
      && URL(e)[|scheme|..|scheme| + |e.host|] == e.host
      && URL(e)[|scheme| + |e.host|..] == e.path
  {
  }

  datatype Reads = Reads(
    server: Lookup,
    config: Lookup,
    staleCleanup: Lookup,
    refProblem: Option<string>,
    extension: Lookup,
    extensionReady: bool,
    listenerProblem: Option<string>,
    hostnameProblem: Option<string>,
    extensionAnnotation: Lookup,
    gatewayAnnotation: Lookup,
    backend: Lookup,
    prefix: Lookup,
    prefixConflict: string,
    registrationWrite: Lookup,
    route: Lookup,
    routeAccepted: bool,
    registration: Lookup,
    registrationReady: bool,
    address: Lookup,
    text: string,
    endpoint: Option<Endpoint>)

  function Unregistered(reason: Reason, message: string): Decision {
    Write(StatusFalse, reason, message, "")
  }

  /** setNotRegistered: the status is written only once stale resources are gone. */
  function NotRegistered(r: Reads, message: string): Decision {
    if r.staleCleanup == Failed then Leave else Unregistered(GatewayNotRegistered, message)
  }

  /** The httproute controller, in the order of its checks. */
  function DecideHTTPRoute(b: Binding, r: Reads): Decision {
    if b.provider != HTTPRoute || r.server != Found then Leave
    else if b.configRef == "" then NotRegistered(r, "spec.configRef is required for httproute provider")
    else if r.config == Failed then Leave
    else if r.config == NotFound then NotRegistered(r, "ConfigMap not found")
    else if r.refProblem.Some? then NotRegistered(r, r.refProblem.value)
    else if r.gatewayAnnotation != Found || r.backend != Found then Leave
    else if r.hostnameProblem.Some? then NotRegistered(r, r.hostnameProblem.value)
    else if r.route != Found then Leave
    else if !r.routeAccepted
      then Unregistered(OtherReason("RouteNotAccepted"), "Waiting for gateway to accept HTTPRoute")
    else if r.address == Failed then Leave
    else if r.endpoint.None? then Unregistered(OtherReason("PublicAddressPending"), "Waiting for public address")
    else Write(StatusTrue, IsGatewayRegistered, "HTTPRoute accepted by gateway", URL(r.endpoint.value))
  }

  /** The kuadrant controller, in the order of its checks. */
  function DecideKuadrant(b: Binding, r: Reads): Decision {
    if b.provider != Kuadrant || r.server != Found then Leave
    else if b.configRef == "" then NotRegistered(r, "spec.configRef is required for kuadrant provider")
    else if r.config == Failed then Leave
    else if r.config == NotFound then NotRegistered(r, "ConfigMap not found")
    else if r.refProblem.Some? then NotRegistered(r, r.refProblem.value)
    else if r.extensionAnnotation != Found || r.extension == Failed then Leave
    else if r.extension == NotFound then NotRegistered(r, "MCPGatewayExtension not found")
    else if r.gatewayAnnotation != Found then Leave
    else if !r.extensionReady then Unregistered(OtherReason("ExtensionNotReady"), r.text)
    else if r.listenerProblem.Some? then NotRegistered(r, r.listenerProblem.value)
    else if r.hostnameProblem.Some? then NotRegistered(r, r.hostnameProblem.value)
    else if r.backend != Found || r.prefix == Failed then Leave
    else if r.prefixConflict != "" then NotRegistered(r, r.prefixConflict)
    else if r.registrationWrite != Found || r.route != Found then Leave
    else if !r.routeAccepted
      then Unregistered(OtherReason("RouteNotAccepted"), "Waiting for gateway to accept HTTPRoute")
    else if r.registration != Found then Leave
    else if !r.registrationReady then Unregistered(OtherReason("RegistrationNotReady"), r.text)
    else if r.address == Failed then Unregistered(GatewayNotRegistered, r.text)
    else if r.endpoint.None? then Unregistered(OtherReason("PublicAddressPending"), "Waiting for public address")
    else Write(StatusTrue, IsGatewayRegistered, r.text, URL(r.endpoint.value))
  }

  function Decide(controller: Provider, b: Binding, r: Reads): Decision {
    match controller
    case HTTPRoute => DecideHTTPRoute(b, r)
    case Kuadrant => DecideKuadrant(b, r)
    case OtherProvider(_) => Leave
  }

  // ---- What the decisions mean ----

  /** Everything the httproute controller needs before it may register. */
  predicate QualifiesHTTPRoute(b: Binding, r: Reads) {
    && b.provider == HTTPRoute && b.configRef != "" && r.server == Found && r.config == Found && r.refProblem.None?
    && r.gatewayAnnotation == Found && r.backend == Found && r.hostnameProblem.None?
    && r.route == Found && r.routeAccepted && r.address != Failed && r.endpoint.Some?
  }

  /** The kuadrant controller also needs its extension, a listener, a free prefix and a ready registration. */
  predicate QualifiesKuadrant(b: Binding, r: Reads) {
    && b.provider == Kuadrant && b.configRef != "" && r.server == Found && r.config == Found && r.refProblem.None?
    && r.extensionAnnotation == Found && r.extension == Found && r.gatewayAnnotation == Found && r.extensionReady
    && r.listenerProblem.None? && r.hostnameProblem.None? && r.backend == Found
    && r.prefix != Failed && r.prefixConflict == ""
    && r.registrationWrite == Found && r.route == Found && r.routeAccepted
    && r.registration == Found && r.registrationReady && r.address != Failed && r.endpoint.Some?
  }

  predicate Qualifies(controller: Provider, b: Binding, r: Reads) {
    match controller
    case HTTPRoute => QualifiesHTTPRoute(b, r)
    case Kuadrant => QualifiesKuadrant(b, r)
    case OtherProvider(_) => false
  }

  predicate Registering(d: Decision) {
    d.Write? && d.status == StatusTrue
  }

  lemma HTTPRouteRegisters(b: Binding, r: Reads)
    ensures Registering(DecideHTTPRoute(b, r)) <==> QualifiesHTTPRoute(b, r)
    ensures QualifiesHTTPRoute(b, r) ==> DecideHTTPRoute(b, r).url == URL(r.endpoint.value)
  {
  }

  lemma KuadrantRegisters(b: Binding, r: Reads)
    ensures Registering(DecideKuadrant(b, r)) <==> QualifiesKuadrant(b, r)
    ensures QualifiesKuadrant(b, r) ==> DecideKuadrant(b, r).url == URL(r.endpoint.value)
  {
  }

  /** A controller registers exactly when everything it needs is there, with the URL of the endpoint it found. */
  lemma RegistersExactly(controller: Provider, b: Binding, r: Reads)
    ensures Registering(Decide(controller, b, r)) <==> Qualifies(controller, b, r)
    ensures Qualifies(controller, b, r) ==> Decide(controller, b, r).url == URL(r.endpoint.value)
  {
    HTTPRouteRegisters(b, r);
    KuadrantRegisters(b, r);
  }

  /** One check of a controller: passed, or what is decided instead. */
  datatype Check = Check(passed: bool, otherwise: Decision)

  /** The k-th check is the first that fails. */
  predicate FirstFailure(checks: seq<Check>, k: nat) {
    k < |checks| && !checks[k].passed && forall j :: 0 <= j < k ==> checks[j].passed
  }

  /** A configuration problem is reported once the stale resources are gone. */
  function Problem(r: Reads, text: string): Decision {
    if r.staleCleanup == Failed then Leave else Write(StatusFalse, GatewayNotRegistered, text, "")
  }

  function Pending(reason: string, text: string): Decision {
    Write(StatusFalse, OtherReason(reason), text, "")
  }

  function TextOf(o: Option<string>): string {
    if o.Some? then o.value else ""
  }

  /** The httproute checks in order: a failing read leaves the status alone, anything else says what is missing. */
  function HTTPRouteChecks(b: Binding, r: Reads): seq<Check> {
    [Check(b.provider == HTTPRoute && r.server == Found, Leave),
     Check(b.configRef != "", Problem(r, "spec.configRef is required for httproute provider")),
     Check(r.config != Failed, Leave),
     Check(r.config == Found, Problem(r, "ConfigMap not found")),
     Check(r.refProblem.None?, Problem(r, TextOf(r.refProblem))),
     Check(r.gatewayAnnotation == Found && r.backend == Found, Leave),
     Check(r.hostnameProblem.None?, Problem(r, TextOf(r.hostnameProblem))),
     Check(r.route == Found, Leave),
     Check(r.routeAccepted, Pending("RouteNotAccepted", "Waiting for gateway to accept HTTPRoute")),
     Check(r.address != Failed, Leave),
     Check(r.endpoint.Some?, Pending("PublicAddressPending", "Waiting for public address"))]
  }

  function KuadrantChecks(b: Binding, r: Reads): seq<Check> {
    [Check(b.provider == Kuadrant && r.server == Found, Leave),
     Check(b.configRef != "", Problem(r, "spec.configRef is required for kuadrant provider")),
     Check(r.config != Failed, Leave),
     Check(r.config == Found, Problem(r, "ConfigMap not found")),
     Check(r.refProblem.None?, Problem(r, TextOf(r.refProblem))),
     Check(r.extensionAnnotation == Found && r.extension != Failed, Leave),
     Check(r.extension == Found, Problem(r, "MCPGatewayExtension not found")),
     Check(r.gatewayAnnotation == Found, Leave),
     Check(r.extensionReady, Pending("ExtensionNotReady", r.text)),
     Check(r.listenerProblem.None?, Problem(r, TextOf(r.listenerProblem))),
     Check(r.hostnameProblem.None?, Problem(r, TextOf(r.hostnameProblem))),
     Check(r.backend == Found && r.prefix != Failed, Leave),
     Check(r.prefixConflict == "", Problem(r, r.prefixConflict)),
     Check(r.registrationWrite == Found && r.route == Found, Leave),
     Check(r.routeAccepted, Pending("RouteNotAccepted", "Waiting for gateway to accept HTTPRoute")),
     Check(r.registration == Found, Leave),
     Check(r.registrationReady, Pending("RegistrationNotReady", r.text)),
     Check(r.address != Failed, Write(StatusFalse, GatewayNotRegistered, r.text, "")),
     Check(r.endpoint.Some?, Pending("PublicAddressPending", "Waiting for public address"))]
  }

  /** Short of registering, the first failing check decides. */
  lemma HTTPRouteDecides(b: Binding, r: Reads, k: nat)
    requires FirstFailure(HTTPRouteChecks(b, r), k)
    ensures DecideHTTPRoute(b, r) == HTTPRouteChecks(b, r)[k].otherwise
  {
    var cs := HTTPRouteChecks(b, r);
    assert forall j :: 0 <= j < k ==> cs[j].passed;
    assert k > 0 ==> cs[0].passed;
    assert k > 1 ==> cs[1].passed;
    assert k > 2 ==> cs[2].passed;
    assert k > 3 ==> cs[3].passed;
    assert k > 4 ==> cs[4].passed;
    assert k > 5 ==> cs[5].passed;
    assert k > 6 ==> cs[6].passed;
    assert k > 7 ==> cs[7].passed;
    assert k > 8 ==> cs[8].passed;
    assert k > 9 ==> cs[9].passed;
  }

  lemma KuadrantDecides(b: Binding, r: Reads, k: nat)
    requires FirstFailure(KuadrantChecks(b, r), k)
    ensures DecideKuadrant(b, r) == KuadrantChecks(b, r)[k].otherwise
  {
    var cs := KuadrantChecks(b, r);
    if k < 9 {
      assert k > 0 ==> cs[0].passed;
      assert k > 1 ==> cs[1].passed;
      assert k > 2 ==> cs[2].passed;
      assert k > 3 ==> cs[3].passed;
      assert k > 4 ==> cs[4].passed;
      assert k > 5 ==> cs[5].passed;
      assert k > 6 ==> cs[6].passed;
      assert k > 7 ==> cs[7].passed;
    } else {
      assert cs[0].passed && cs[1].passed && cs[2].passed && cs[3].passed && cs[4].passed;
      assert cs[5].passed && cs[6].passed && cs[7].passed && cs[8].passed;
      KuadrantLate(b, r, k);
    }
  }

  /** The later half of the checks. */
  lemma KuadrantLate(b: Binding, r: Reads, k: nat)
    requires FirstFailure(KuadrantChecks(b, r), k) && k >= 9
    ensures DecideKuadrant(b, r) == KuadrantChecks(b, r)[k].otherwise
  {
    var cs := KuadrantChecks(b, r);
    assert cs[0].passed && cs[1].passed && cs[2].passed && cs[3].passed && cs[4].passed;
    assert cs[5].passed && cs[6].passed && cs[7].passed && cs[8].passed;
    assert k > 9 ==> cs[9].passed;
    assert k > 10 ==> cs[10].passed;
    assert k > 11 ==> cs[11].passed;
    assert k > 12 ==> cs[12].passed;
    assert k > 13 ==> cs[13].passed;
    assert k > 14 ==> cs[14].passed;
    assert k > 15 ==> cs[15].passed;
    assert k > 16 ==> cs[16].passed;
    assert k > 17 ==> cs[17].passed;
  }

  // ---- Runs ----

  /** A registration that was stored: on which object and generation, decided for which spec, with which URL. */
  datatype Registration = Registration(uid: nat, generation: int, provider: Provider, configRef: string, url: string)

  /** versions holds every version ever stored; a controller may work on any of them. */
  datatype World = World(
    stored: Option<Binding>,
    versions: set<Binding>,
    nextVersion: nat,
    nextUid: nat,
    registrations: set<Registration>)

  const EMPTY := World(None, {}, 0, 0, {})

  /**
   A reconcile decides on the version it read. Recording annotations in between is an
   unconditional merge patch that refreshes the controller's copy, so the version whose
   status it then replaces may be a later one.
   */
  datatype Event =
    | Create(provider: Provider, configRef: string)
    | Delete
    | ChangeSpec(newProvider: Provider, newConfigRef: string)
    | Touch
    | Reconcile(controller: Provider, read: Binding, copy: Binding, observed: Reads, now: int)

  function Put(w: World, b: Binding): World {
    var b' := b.(resourceVersion := w.nextVersion);
    w.(stored := Some(b'), versions := w.versions + {b'}, nextVersion := w.nextVersion + 1)
  }

  /** A new spec is a new generation. */
  function Edited(b: Binding, provider: Provider, configRef: string): Binding {
    b.(generation := b.generation + 1, provider := provider, configRef := configRef)
  }

  function NewRegistrations(read: Binding, copy: Binding, d: Decision): set<Registration> {
    if d.Write? && d.status == StatusTrue
    then {Registration(copy.uid, copy.generation, read.provider, read.configRef, d.url)}
    else {}
  }

  function Next(w: World, e: Event): World {
    match e
    case Create(provider, configRef) =>
      if w.stored.Some? then w
      else Put(w.(nextUid := w.nextUid + 1), Binding(w.nextUid, 0, 1, provider, configRef, [], ""))
    case Delete => w.(stored := None)
    case ChangeSpec(provider, configRef) =>
      if w.stored.None? then w
      else Put(w, Edited(w.stored.value, provider, configRef))
    case Touch => if w.stored.None? then w else Put(w, w.stored.value)
    case Reconcile(controller, read, copy, observed, now) =>
      var d := Decide(controller, read, observed);
      if read !in w.versions || copy !in w.versions || d.Leave? || Settled(copy, d) then w
      else if w.stored.None? || w.stored.value.resourceVersion != copy.resourceVersion then w
      else Put(w.(registrations := w.registrations + NewRegistrations(read, copy, d)), WithStatus(copy, d, now))
  }

  function Exec(es: seq<Event>): World
    decreases |es|
  {
    if es == [] then EMPTY else Next(Exec(es[..|es| - 1]), es[|es| - 1])
  }

  predicate RegisteredNow(b: Binding) {
    HoldsTrue(b.conditions, Registered) && Find(b.conditions, Registered).value.observedGeneration >= b.generation
  }

  ghost predicate SomeRegistration(b: Binding, registrations: set<Registration>) {
    exists p, c :: Registration(b.uid, b.generation, p, c, b.url) in registrations
  }

  /** Registered is True exactly when a URL is recorded, and only registrations make it current. */
  ghost predicate Consistent(b: Binding, registrations: set<Registration>) {
    && UniqueTypes(b.conditions)
    && RegisteredMeansURL(b.conditions, b.url)
    && (Find(b.conditions, Registered).Some? ==>
      Find(b.conditions, Registered).value.observedGeneration <= b.generation)
    && (RegisteredNow(b) ==> SomeRegistration(b, registrations))
  }

  ghost predicate Sound(w: World) {
    && (w.stored.Some? ==> w.stored.value in w.versions)
    && (forall b :: b in w.versions ==> Consistent(b, w.registrations) && b.resourceVersion < w.nextVersion)
    && (forall a, b :: a in w.versions && b in w.versions && a.resourceVersion == b.resourceVersion ==> a == b)
  }

  lemma PutSound(w: World, b: Binding)
    requires Sound(w) && Consistent(b, w.registrations)
    ensures Sound(Put(w, b))
  {
    var b' := b.(resourceVersion := w.nextVersion);
    assert SomeRegistration(b, w.registrations) ==> SomeRegistration(b', w.registrations);
    assert Consistent(b', w.registrations);
  }

  predicate URLWhenRegistered(d: Decision) {
    d.Write? ==> (d.status == StatusTrue <==> d.url != "")
  }

  lemma HTTPRouteConsistent(b: Binding, r: Reads)
    ensures URLWhenRegistered(DecideHTTPRoute(b, r)) && (DecideHTTPRoute(b, r).Write? ==> b.provider == HTTPRoute)
  {
  }

  lemma KuadrantConsistent(b: Binding, r: Reads)
    ensures URLWhenRegistered(DecideKuadrant(b, r)) && (DecideKuadrant(b, r).Write? ==> b.provider == Kuadrant)
  {
  }

  lemma DecisionsConsistent(controller: Provider, b: Binding, r: Reads)
    ensures var d := Decide(controller, b, r);
      URLWhenRegistered(d) && (d.Write? ==> b.provider == controller)
  {
    HTTPRouteConsistent(b, r);
    KuadrantConsistent(b, r);
  }

  lemma WithStatusConsistent(read: Binding, copy: Binding, d: Decision, now: int, registrations: set<Registration>)
    requires d.Write? && (d.status == StatusTrue <==> d.url != "")
    requires UniqueTypes(copy.conditions)
    ensures Consistent(WithStatus(copy, d, now), registrations + NewRegistrations(read, copy, d))
  {
    var c := Condition(Registered, d.status, d.reason, d.message, copy.generation, now);
    SetConditionFind(copy.conditions, c, Registered);
    SetConditionUnique(copy.conditions, c);
    if d.status == StatusTrue {
      var r := Registration(copy.uid, copy.generation, read.provider, read.configRef, d.url);
      assert r in NewRegistrations(read, copy, d);
    }
  }

  lemma MoreRegistrations(w: World, more: set<Registration>)
    requires Sound(w)
    ensures Sound(w.(registrations := w.registrations + more))
  {
    var w' := w.(registrations := w.registrations + more);
    forall b | b in w'.versions
      ensures Consistent(b, w'.registrations)
    {
      assert Consistent(b, w.registrations);
      if RegisteredNow(b) {
        var p, c :| Registration(b.uid, b.generation, p, c, b.url) in w.registrations;
        assert Registration(b.uid, b.generation, p, c, b.url) in w'.registrations;
      }
    }
  }

  lemma NextSound(w: World, e: Event)
    requires Sound(w)
    ensures Sound(Next(w, e))
  {
    match e
    case Create(provider, configRef) =>
      if w.stored.None? {
        PutSound(w.(nextUid := w.nextUid + 1), Binding(w.nextUid, 0, 1, provider, configRef, [], ""));
      }
    case Delete =>
    case ChangeSpec(provider, configRef) =>
      if w.stored.Some? {
        assert Consistent(w.stored.value, w.registrations);
        PutSound(w, Edited(w.stored.value, provider, configRef));
      }
    case Touch =>
      if w.stored.Some? {
        PutSound(w, w.stored.value);
      }
    case Reconcile(controller, read, copy, observed, now) =>
      var d := Decide(controller, read, observed);
      if copy in w.versions && d.Write? {
        DecisionsConsistent(controller, read, observed);
        assert Consistent(copy, w.registrations);
        MoreRegistrations(w, NewRegistrations(read, copy, d));
        WithStatusConsistent(read, copy, d, now, w.registrations);
        PutSound(w.(registrations := w.registrations + NewRegistrations(read, copy, d)), WithStatus(copy, d, now));
      }
  }

  lemma {:induction false} AllSound(es: seq<Event>)
    ensures Sound(Exec(es))
    decreases |es|
  {
    if es != [] {
      AllSound(es[..|es| - 1]);
      NextSound(Exec(es[..|es| - 1]), es[|es| - 1]);
    }
  }

  /** Every binding version any run ever stores: Registered=True exactly when its URL is non-empty. */
  lemma RegisteredExactlyWithURL(es: seq<Event>, b: Binding)
    requires b in Exec(es).versions
    ensures HoldsTrue(b.conditions, Registered) <==> b.url != ""
  {
    AllSound(es);
    assert Consistent(b, Exec(es).registrations);
  }

  // ---- Registrations and what they stem from ----

  /** The event's reads had everything its controller needs, and this is the registration it makes. */
  predicate RegisteredBy(e: Event, r: Registration) {
    && e.Reconcile? && Qualifies(e.controller, e.read, e.observed)
    && r == Registration(
         e.copy.uid, e.copy.generation, e.read.provider, e.read.configRef, URL(e.observed.endpoint.value))
  }

  ghost predicate Stems(es: seq<Event>, r: Registration) {
    exists n :: 0 <= n < |es| && RegisteredBy(es[n], r)
  }

  lemma NextStems(w: World, e: Event, r: Registration)
    requires r in Next(w, e).registrations && r !in w.registrations
    ensures RegisteredBy(e, r)
  {
    if e.Reconcile? {
      RegistersExactly(e.controller, e.read, e.observed);
    }
  }

  /**
   Every registration of every run stems from a reconcile whose controller found everything it
   needs: the route accepted, for kuadrant the registration ready, and the URL of that endpoint.
   */
  lemma {:induction false} RegistrationsStem(es: seq<Event>, r: Registration)
    requires r in Exec(es).registrations
    ensures Stems(es, r)
    decreases |es|
  {
    var front, last := es[..|es| - 1], es[|es| - 1];
    if r in Exec(front).registrations {
      RegistrationsStem(front, r);
      var n :| 0 <= n < |front| && RegisteredBy(front[n], r);
      assert es[n] == front[n];
    } else {
      NextStems(Exec(front), last, r);
      assert RegisteredBy(es[|es| - 1], r);
    }
  }

  /** The controller works on the version that is stored. */
  predicate OnStored(w: World, e: Event) {
    e.Reconcile? && e.read in w.versions && e.copy in w.versions && w.stored == Some(e.copy)
  }

  lemma DecisionStored(w: World, e: Event)
    requires OnStored(w, e) && Decide(e.controller, e.read, e.observed).Write?
    ensures Next(w, e).stored.Some?
    ensures Settled(Next(w, e).stored.value, Decide(e.controller, e.read, e.observed))
  {
    var d := Decide(e.controller, e.read, e.observed);
    if !Settled(e.copy, d) {
      var c := Condition(Registered, d.status, d.reason, d.message, e.copy.generation, e.now);
      SetConditionFind(e.copy.conditions, c, Registered);
    }
  }

  /**
   Progress: a controller that works on the stored version and finds everything it needs leaves
   the binding registered for its generation with the URL found; one that decides otherwise
   leaves it unregistered without a URL.
   */
  lemma DecisionTakesEffect(w: World, e: Event)
    requires OnStored(w, e)
    ensures Qualifies(e.controller, e.read, e.observed) ==>
      && Next(w, e).stored.Some? && RegisteredNow(Next(w, e).stored.value)
      && Next(w, e).stored.value.url == URL(e.observed.endpoint.value)
    ensures !Qualifies(e.controller, e.read, e.observed) && Decide(e.controller, e.read, e.observed).Write? ==>
      && Next(w, e).stored.Some? && Next(w, e).stored.value.url == ""
      && !HoldsTrue(Next(w, e).stored.value.conditions, Registered)
    ensures Decide(e.controller, e.read, e.observed).Leave? ==> Next(w, e) == w
  {
    RegistersExactly(e.controller, e.read, e.observed);
    DecisionsConsistent(e.controller, e.read, e.observed);
    if Decide(e.controller, e.read, e.observed).Write? {
      DecisionStored(w, e);
    }
  }

  // ---- Registrations and the spec they were decided for ----

  ghost predicate SpecOf(a: Binding, b: Binding) {
    a.uid == b.uid && a.generation == b.generation ==> a.provider == b.provider && a.configRef == b.configRef
  }

  /** The spec is a function of the object and its generation. */
  ghost predicate Generations(w: World) {
    && (w.stored.Some? ==> w.stored.value in w.versions)
    && (forall b :: b in w.versions ==> b.uid < w.nextUid)
    && (forall b :: b in w.versions && w.stored.Some? && b.uid == w.stored.value.uid ==>
      b.generation <= w.stored.value.generation)
    && (forall a, b :: a in w.versions && b in w.versions ==> SpecOf(a, b))
  }

  ghost predicate DecidedForSpec(w: World) {
    forall r, b :: r in w.registrations && b in w.versions && r.uid == b.uid && r.generation == b.generation ==>
      r.provider == b.provider && r.configRef == b.configRef
  }

  ghost predicate KnownSubjects(w: World) {
    forall r :: r in w.registrations ==> exists b :: b in w.versions && b.uid == r.uid && b.generation == r.generation
  }

  /** What every run keeps about specs and registrations, whether or not they match. */
  ghost predicate Traceable(w: World) {
    Sound(w) && Generations(w) && KnownSubjects(w)
  }

  predicate SameSpec(a: Binding, b: Binding) {
    a.uid == b.uid && a.generation == b.generation && a.provider == b.provider && a.configRef == b.configRef
  }

  /** Storing a version of an object and generation already stored. */
  lemma PutSameSpec(w: World, b: Binding)
    requires Traceable(w) && w.stored.Some? && SameSpec(b, w.stored.value)
    ensures Generations(Put(w, b)) && KnownSubjects(Put(w, b))
    ensures DecidedForSpec(Put(w, b)) <==> DecidedForSpec(w)
  {
    var w' := Put(w, b);
    forall x, y | x in w'.versions && y in w'.versions
      ensures SpecOf(x, y)
    {
      var x0 := if x in w.versions then x else w.stored.value;
      var y0 := if y in w.versions then y else w.stored.value;
      assert SpecOf(x0, y0);
    }
    KnownMonotone(w, w');
  }

  lemma KnownMonotone(w: World, w': World)
    requires KnownSubjects(w) && w.versions <= w'.versions && w'.registrations == w.registrations
    ensures KnownSubjects(w')
  {
    forall r | r in w'.registrations
      ensures exists b :: b in w'.versions && b.uid == r.uid && b.generation == r.generation
    {
      var b :| b in w.versions && b.uid == r.uid && b.generation == r.generation;
      assert b in w'.versions;
    }
  }

  /** Storing a version of an object or generation never stored before. */
  lemma PutNewSpec(w: World, b: Binding)
    requires Sound(w) && KnownSubjects(w) && b.uid < w.nextUid
    requires forall a :: a in w.versions ==> a.uid < w.nextUid && (a.uid == b.uid ==> a.generation < b.generation)
    requires forall x, y :: x in w.versions && y in w.versions ==> SpecOf(x, y)
    ensures Generations(Put(w, b)) && KnownSubjects(Put(w, b))
    ensures DecidedForSpec(Put(w, b)) <==> DecidedForSpec(w)
  {
    KnownMonotone(w, Put(w, b));
    forall r | r in w.registrations
      ensures r.uid == b.uid ==> r.generation < b.generation
    {
      var a :| a in w.versions && a.uid == r.uid && a.generation == r.generation;
    }
  }

  /** The decision was made for the spec whose status it replaces. */
  predicate SpecsAgree(read: Binding, copy: Binding) {
    read.provider == copy.provider && read.configRef == copy.configRef
  }

  /** Logging a registration keeps all of them decided for their spec exactly when this one is. */
  lemma NewRegistrationExact(w: World, read: Binding, copy: Binding, d: Decision)
    requires Traceable(w) && copy in w.versions
    ensures var w' := w.(registrations := w.registrations + NewRegistrations(read, copy, d));
      && Traceable(w')
      && (DecidedForSpec(w')
        <==> DecidedForSpec(w) && (NewRegistrations(read, copy, d) != {} ==> SpecsAgree(read, copy)))
  {
    var more := NewRegistrations(read, copy, d);
    var w' := w.(registrations := w.registrations + more);
    MoreRegistrations(w, more);
    forall r | r in w'.registrations
      ensures exists b :: b in w'.versions && b.uid == r.uid && b.generation == r.generation
    {
      if r !in w.registrations {
        assert copy in w'.versions;
      }
    }
    if more != {} {
      var r := Registration(copy.uid, copy.generation, read.provider, read.configRef, d.url);
      assert more == {r} && r in w'.registrations;
      assert DecidedForSpec(w') ==> SpecsAgree(read, copy);
      if SpecsAgree(read, copy) {
        forall b | b in w.versions && b.uid == r.uid && b.generation == r.generation
          ensures b.provider == r.provider && b.configRef == r.configRef
        {
          assert SpecOf(copy, b);
        }
      }
    }
  }

  /** The event stores Registered=True. */
  predicate Registers(w: World, e: Event) {
    && e.Reconcile?
    && var d := Decide(e.controller, e.read, e.observed);
       && d.Write? && d.status == StatusTrue && Takes(w, e.read, e.copy, d)
  }

  /** The write is made and not refused as a conflict. */
  predicate Takes(w: World, read: Binding, copy: Binding, d: Decision)
    requires d.Write?
  {
    && read in w.versions && copy in w.versions && !Settled(copy, d)
    && w.stored.Some? && w.stored.value.resourceVersion == copy.resourceVersion
  }

  predicate Matching(w: World, e: Event) {
    Registers(w, e) ==> SpecsAgree(e.read, e.copy)
  }

  lemma NextSpec(w: World, e: Event)
    requires Traceable(w) && !e.Reconcile?
    ensures Traceable(Next(w, e))
    ensures DecidedForSpec(Next(w, e)) <==> DecidedForSpec(w)
  {
    NextSound(w, e);
    match e
    case Create(provider, configRef) =>
      if w.stored.None? {
        PutNewSpec(w.(nextUid := w.nextUid + 1), Binding(w.nextUid, 0, 1, provider, configRef, [], ""));
      }
    case Delete =>
    case ChangeSpec(provider, configRef) =>
      if w.stored.Some? {
        PutNewSpec(w, Edited(w.stored.value, provider, configRef));
      }
    case Touch =>
      if w.stored.Some? {
        PutSameSpec(w, w.stored.value);
      }
  }

  lemma NextWrite(w: World, read: Binding, copy: Binding, d: Decision, now: int)
    requires Traceable(w) && d.Write? && Takes(w, read, copy, d)
    ensures var w1 := w.(registrations := w.registrations + NewRegistrations(read, copy, d));
      var w' := Put(w1, WithStatus(copy, d, now));
      && Generations(w') && KnownSubjects(w')
      && (DecidedForSpec(w') <==> DecidedForSpec(w) && (d.status == StatusTrue ==> SpecsAgree(read, copy)))
  {
    assert w.stored == Some(copy);
    NewRegistrationExact(w, read, copy, d);
    PutSameSpec(w.(registrations := w.registrations + NewRegistrations(read, copy, d)), WithStatus(copy, d, now));
  }

  /** One event keeps registrations decided for their spec exactly when it is no mismatched registration. */
  lemma NextTraceable(w: World, e: Event)
    requires Traceable(w)
    ensures Traceable(Next(w, e))
    ensures DecidedForSpec(Next(w, e)) <==> DecidedForSpec(w) && Matching(w, e)
  {
    if e.Reconcile? {
      NextSound(w, e);
      var d := Decide(e.controller, e.read, e.observed);
      if d.Write? && Takes(w, e.read, e.copy, d) {
        NextWrite(w, e.read, e.copy, d, e.now);
      }
    } else {
      NextSpec(w, e);
    }
  }

  /** Every registering write of the run was decided for the spec whose status it replaced. */
  predicate MatchingRegistrations(es: seq<Event>) {
    forall n :: 0 <= n < |es| ==> Matching(Exec(es[..n]), es[n])
  }

  lemma MatchingSnoc(es: seq<Event>)
    requires es != []
    ensures var front, last := es[..|es| - 1], es[|es| - 1];
      MatchingRegistrations(es) <==> MatchingRegistrations(front) && Matching(Exec(front), last)
  {
    var front := es[..|es| - 1];
    assert forall n :: 0 <= n < |front| ==> front[..n] == es[..n] && front[n] == es[n];
    if MatchingRegistrations(front) && Matching(Exec(front), es[|es| - 1]) {
      forall n | 0 <= n < |es| ensures Matching(Exec(es[..n]), es[n]) {
        if n < |front| {
          assert Matching(Exec(front[..n]), front[n]);
        }
      }
    }
  }

  /**
   For every run: all stored registrations were decided for the spec of the generation they
   are recorded under, if and only if each registering write replaced the status of a version
   with the provider and configuration that had been read.
   */
  lemma {:induction false} RegistrationsDecidedForSpec(es: seq<Event>)
    ensures Traceable(Exec(es))
    ensures DecidedForSpec(Exec(es)) <==> MatchingRegistrations(es)
    decreases |es|
  {
    if es != [] {
      RegistrationsDecidedForSpec(es[..|es| - 1]);
      NextTraceable(Exec(es[..|es| - 1]), es[|es| - 1]);
      MatchingSnoc(es);
    }
  }

  /** In such runs a registration that is current was decided for the spec now in force. */
  lemma CurrentRegistrationDecidedForSpec(es: seq<Event>, b: Binding)
    requires MatchingRegistrations(es)
    requires b in Exec(es).versions && RegisteredNow(b)
    ensures Registration(b.uid, b.generation, b.provider, b.configRef, b.url) in Exec(es).registrations
  {
    RegistrationsDecidedForSpec(es);
    assert Consistent(b, Exec(es).registrations);
    var p, c :| Registration(b.uid, b.generation, p, c, b.url) in Exec(es).registrations;
  }

  const ACCEPTED_READS := Reads(
    Found, Found, Found, None, Found, true, None, None, Found, Found, Found, Found, "",
    Found, Found, true, Found, true, Found, "", Some(Endpoint(false, "a", "/mcp")))

  function VersionZero(): Binding { Binding(0, 0, 1, HTTPRoute, "old", [], "") }
  function PatchedVersion(): Binding { Binding(0, 2, 2, HTTPRoute, "new", [], "") }

  lemma ExecSnoc(es: seq<Event>, e: Event)
    ensures Exec(es + [e]) == Next(Exec(es), e)
  {
    assert (es + [e])[..|es|] == es;
  }

  /** A URL decided from the previous configuration is recorded as current for the new one. */
  lemma PatchedCopyRegistersOldConfig() returns (es: seq<Event>)
    ensures var w := Exec(es);
      && w.stored.Some? && RegisteredNow(w.stored.value) && !MatchingRegistrations(es)
      && var b := w.stored.value;
         Registration(b.uid, b.generation, b.provider, b.configRef, b.url) !in w.registrations
  {
    var create, edit := Create(HTTPRoute, "old"), ChangeSpec(HTTPRoute, "new");
    var publish := Reconcile(HTTPRoute, VersionZero(), PatchedVersion(), ACCEPTED_READS, 0);
    es := [] + [create] + [edit] + [Touch] + [publish];
    ExecSnoc([], create);
    ExecSnoc([] + [create], edit);
    ExecSnoc([] + [create] + [edit], Touch);
    ExecSnoc([] + [create] + [edit] + [Touch], publish);
    var w3 := Next(Next(Next(EMPTY, create), edit), Touch);
    assert w3.stored == Some(PatchedVersion()) && VersionZero() in w3.versions && w3.registrations == {};
    var url := URL(Endpoint(false, "a", "/mcp"));
    assert Decide(HTTPRoute, VersionZero(), ACCEPTED_READS)
      == Write(StatusTrue, IsGatewayRegistered, "HTTPRoute accepted by gateway", url);
    assert Exec(es).registrations == {Registration(0, 2, HTTPRoute, "old", url)};
    assert "old"[0] != "new"[0];
    RegistrationsDecidedForSpec(es);
    assert Exec(es).stored.value in Exec(es).versions;
  }

  function ReadBinding(name: string, b: Binding): Reconcile.GatewayRead {
    Reconcile.BindingRead(name, b.generation, b.conditions, b.url)
  }

  /**
   End to end: a server that reports itself registered and verified after reading any
   version of its binding publishes that binding's non-empty URL, which some provider
   controller registered on that very object and generation.
   */
  lemma PublishedURLWasRegistered(es: seq<Event>, b: Binding, name: string, s: Reconcile.State, i: Reconcile.Input)
    requires b in Exec(es).versions
    requires i.path.Endpoint? && i.path.reached.gateway == ReadBinding(name, b)
    requires Reconcile.Step(s, i).applied.Some?
    requires HoldsTrue(Reconcile.Step(s, i).applied.value.conditions, Verified)
    requires HoldsTrue(Reconcile.Step(s, i).applied.value.conditions, GatewayRegistered)
    ensures b.url != "" && Reconcile.Step(s, i).applied.value.address == Some(b.url)
    ensures RegisteredNow(b) && SomeRegistration(b, Exec(es).registrations)
  {
    AllSound(es);
    assert Consistent(b, Exec(es).registrations);
    RegisteredPublishesGatewayURL(s, i);
    RegisteredIsCurrent(s, i);
  }

  lemma RegisteredIsCurrent(s: Reconcile.State, i: Reconcile.Input)
    requires i.path.Endpoint? && i.path.reached.gateway.BindingRead?
    requires Reconcile.Step(s, i).applied.Some?
    requires HoldsTrue(Reconcile.Step(s, i).applied.value.conditions, GatewayRegistered)
    ensures var g := i.path.reached.gateway;
      HoldsTrue(g.conditions, Registered) && Find(g.conditions, Registered).value.observedGeneration >= g.generation
  {
    EndpointStatus(s, i, i.path.reached);
  }

  /** A registration outlives its generation: the stale URL stays stored but is not published. */
  lemma StaleRegistrationWithheld(s: Reconcile.State, i: Reconcile.Input, b: Binding, name: string)
    requires s.server.Some? && i.path.Endpoint? && i.path.reached.gateway == ReadBinding(name, b)
    requires HoldsTrue(b.conditions, Registered)
      && Find(b.conditions, Registered).value.observedGeneration < b.generation
    ensures !HoldsTrue(Reconcile.Step(s, i).applied.value.conditions, GatewayRegistered)
    ensures Reconcile.Step(s, i).applied.value.address in {None, Some(i.path.reached.clusterURL)}
  {
    EndpointStatus(s, i, i.path.reached);
  }
}
