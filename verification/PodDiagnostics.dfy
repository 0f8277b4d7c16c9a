/**
 Pod diagnostics: which container failure is reported, the fingerprint the pod watch
 compares, and the proof that the events it drops never hide a changed diagnosis.
 */
module PodDiagnostics {
  import opened Wrappers
  import Strings

  // ---- Container states ----

  datatype WaitingReason = ImagePullBackOff | ErrImagePull | CrashLoopBackOff | CreateContainerConfigError
    | OtherWaiting(text: string)
  datatype Waiting = Waiting(reason: WaitingReason, message: string)
  datatype Terminated = Terminated(oomKilled: bool, exitCode: int)

  datatype ContainerStatus = ContainerStatus(
    name: string,
    image: string,
    ready: bool,
    restartCount: int,
    waiting: Option<Waiting>,
    running: bool,
    terminated: Option<Terminated>,
    lastTerminated: Option<Terminated>)

  datatype Pod = Pod(name: string, initContainers: seq<ContainerStatus>, containers: seq<ContainerStatus>)

  datatype FailureKind = ImagePull | CrashLoop | ConfigError | OOMKilled | NotReady

  datatype Failure = Failure(
    kind: FailureKind,
    pod: string,
    container: string,
    initial: bool,
    image: string,
    detail: string,
    exitCode: Option<int>,
    restarts: int)

  /** classifyContainer. */
  function Classify(cs: ContainerStatus, pod: string, initial: bool): Option<Failure> {
    var f := Failure(NotReady, pod, cs.name, initial, cs.image, "", None, cs.restartCount);
    if cs.waiting.Some? && cs.waiting.value.reason in {ImagePullBackOff, ErrImagePull} then
      Some(f.(kind := ImagePull, detail := cs.waiting.value.message))
    else if cs.waiting.Some? && cs.waiting.value.reason == CrashLoopBackOff then
      var exitCode := if cs.lastTerminated.Some? then Some(cs.lastTerminated.value.exitCode) else None;
      Some(f.(kind := CrashLoop, exitCode := exitCode))
    else if cs.waiting.Some? && cs.waiting.value.reason == CreateContainerConfigError then
      Some(f.(kind := ConfigError, detail := cs.waiting.value.message))
    else if cs.terminated.Some? && cs.terminated.value.oomKilled then
      Some(f.(kind := OOMKilled, exitCode := Some(cs.terminated.value.exitCode)))
    else if cs.running && !cs.ready && cs.restartCount > 0 then Some(f)
    else None
  }

  // ---- The reported failure ----

  function FirstOf(statuses: seq<ContainerStatus>, pod: string, initial: bool): Option<Failure> {
    if statuses == [] then None
    else
      var f := Classify(statuses[0], pod, initial);
      if f.Some? then f else FirstOf(statuses[1..], pod, initial)
  }

  function FirstFailure(pod: Pod): Option<Failure> {
    var f := FirstOf(pod.initContainers, pod.name, true);
    if f.Some? then f else FirstOf(pod.containers, pod.name, false)
  }

  /** The failure reported for a list of pods: that of the first failing pod. */
  function Diagnose(pods: seq<Pod>): Option<Failure> {
    if pods == [] then None
    else
      var f := FirstFailure(pods[0]);
      if f.Some? then f else Diagnose(pods[1..])
  }

  method ScanContainers(statuses: seq<ContainerStatus>, pod: string, initial: bool) returns (f: Option<Failure>)
    ensures f == FirstOf(statuses, pod, initial)
  {
    for i := 0 to |statuses|
      invariant FirstOf(statuses, pod, initial) == FirstOf(statuses[i..], pod, initial)
    {
      var c := Classify(statuses[i], pod, initial);
      if c.Some? {
        return c;
      }
    }
    return None;
  }

  /** analyzePodFailures, before rendering. */
  method AnalyzePodFailures(pods: seq<Pod>) returns (f: Option<Failure>)
    ensures f == Diagnose(pods)
  {
    for i := 0 to |pods|
      invariant Diagnose(pods) == Diagnose(pods[i..])
    {
      var first := ScanContainers(pods[i].initContainers, pods[i].name, true);
      if first.None? {
        first := ScanContainers(pods[i].containers, pods[i].name, false);
      }
      if first.Some? {
        return first;
      }
    }
    return None;
  }

  // ---- Which failure is reported ----

  predicate WaitsFor(cs: ContainerStatus, reasons: set<WaitingReason>) {
    cs.waiting.Some? && cs.waiting.value.reason in reasons
  }

  const KNOWN_WAITS := {ImagePullBackOff, ErrImagePull, CrashLoopBackOff, CreateContainerConfigError}

  predicate KilledForMemory(cs: ContainerStatus) {
    !WaitsFor(cs, KNOWN_WAITS) && cs.terminated.Some? && cs.terminated.value.oomKilled
  }

  predicate FailsProbe(cs: ContainerStatus) {
    && !WaitsFor(cs, KNOWN_WAITS) && !KilledForMemory(cs)
    && cs.running && !cs.ready && cs.restartCount > 0
  }

  /** Which container state gives which kind of failure, and nothing else gives one. */
  lemma ClassifyKind(cs: ContainerStatus, pod: string, initial: bool)
    ensures var f := Classify(cs, pod, initial);
      && (f.Some? && f.value.kind == ImagePull <==> WaitsFor(cs, {ImagePullBackOff, ErrImagePull}))
      && (f.Some? && f.value.kind == CrashLoop <==> WaitsFor(cs, {CrashLoopBackOff}))
      && (f.Some? && f.value.kind == ConfigError <==> WaitsFor(cs, {CreateContainerConfigError}))
      && (f.Some? && f.value.kind == OOMKilled <==> KilledForMemory(cs))
      && (f.Some? && f.value.kind == NotReady <==> FailsProbe(cs))
      && (f.None? <==> !WaitsFor(cs, KNOWN_WAITS) && !KilledForMemory(cs) && !FailsProbe(cs))
  {
  }

  /** What the failure carries: the waiting message where it informs, the exit code of the crash or the kill. */
  lemma ClassifyDetail(cs: ContainerStatus, pod: string, initial: bool)
    requires Classify(cs, pod, initial).Some?
    ensures var f := Classify(cs, pod, initial).value;
      && f.pod == pod && f.container == cs.name && f.initial == initial && f.image == cs.image
      && f.restarts == cs.restartCount
      && f.detail == (if f.kind == ImagePull || f.kind == ConfigError then cs.waiting.value.message else "")
      && f.exitCode ==
           (if f.kind == CrashLoop && cs.lastTerminated.Some? then Some(cs.lastTerminated.value.exitCode)
            else if f.kind == OOMKilled then Some(cs.terminated.value.exitCode)
            else None)
  {
  }

  /** The k-th container is the first failing one. */
  predicate FirstFailing(statuses: seq<ContainerStatus>, pod: string, initial: bool, k: nat) {
    && k < |statuses| && Classify(statuses[k], pod, initial).Some?
    && forall j :: 0 <= j < k ==> Classify(statuses[j], pod, initial).None?
  }

  predicate AllFine(statuses: seq<ContainerStatus>, pod: string, initial: bool) {
    forall j :: 0 <= j < |statuses| ==> Classify(statuses[j], pod, initial).None?
  }

  lemma {:induction false} FirstOfFine(statuses: seq<ContainerStatus>, pod: string, initial: bool)
    ensures FirstOf(statuses, pod, initial).None? <==> AllFine(statuses, pod, initial)
  {
    if statuses != [] {
      FirstOfFine(statuses[1..], pod, initial);
      assert forall j :: 0 < j < |statuses| ==> statuses[j] == statuses[1..][j - 1];
    }
  }

  lemma {:induction false} FirstOfAt(statuses: seq<ContainerStatus>, pod: string, initial: bool, k: nat)
    requires FirstFailing(statuses, pod, initial, k)
    ensures FirstOf(statuses, pod, initial) == Classify(statuses[k], pod, initial)
  {
    if k > 0 {
      assert Classify(statuses[0], pod, initial).None?;
      FirstOfAt(statuses[1..], pod, initial, k - 1);
    }
  }

  /** Of one pod the first failing init container is reported, and a regular one only when all of those are fine. */
  lemma FirstFailureExact(p: Pod, k: nat)
    ensures FirstFailing(p.initContainers, p.name, true, k) ==>
      FirstFailure(p) == Classify(p.initContainers[k], p.name, true)
    ensures AllFine(p.initContainers, p.name, true) && FirstFailing(p.containers, p.name, false, k) ==>
      FirstFailure(p) == Classify(p.containers[k], p.name, false)
    ensures FirstFailure(p).None? <==>
      AllFine(p.initContainers, p.name, true) && AllFine(p.containers, p.name, false)
  {
    FirstOfFine(p.initContainers, p.name, true);
    FirstOfFine(p.containers, p.name, false);
    if FirstFailing(p.initContainers, p.name, true, k) {
      FirstOfAt(p.initContainers, p.name, true, k);
    }
    if FirstFailing(p.containers, p.name, false, k) {
      FirstOfAt(p.containers, p.name, false, k);
    }
  }

  /** Of many pods the first failing one is reported. */
  lemma {:induction false} DiagnoseExact(pods: seq<Pod>, k: nat)
    requires k < |pods| && FirstFailure(pods[k]).Some? && forall j :: 0 <= j < k ==> FirstFailure(pods[j]).None?
    ensures Diagnose(pods) == FirstFailure(pods[k])
  {
    if k > 0 {
      DiagnoseExact(pods[1..], k - 1);
    }
  }

  // ---- The fingerprint ----

  function Digit(d: int): char
    requires 0 <= d < 10
  {
    ('0' as int + d) as char
  }

  function Digits(n: nat): string {
    if n < 10 then [Digit(n)] else Digits(n / 10) + [Digit(n % 10)]
  }

  /** The %d verb. */
  function Decimal(n: int): string {
    if n < 0 then "-" + Digits(-n) else Digits(n)
  }

  function KindText(k: FailureKind): string {
    match k
    case ImagePull => "ImagePull"
    case CrashLoop => "CrashLoop"
    case ConfigError => "ConfigError"
    case OOMKilled => "OOMKilled"
    case NotReady => "NotReady"
  }

  function BoolText(b: bool): string {
    if b then "true" else "false"
  }

  function ExitText(e: Option<int>): string {
    if e.Some? then Decimal(e.value) else "none"
  }

  function Signature(f: Failure): string {
    KindText(f.kind) + ['|'] + AfterKind(f)
  }

  function AfterKind(f: Failure): string {
    f.container + ['|'] + (BoolText(f.initial) + ['|'] + AfterInit(f))
  }

  function AfterInit(f: Failure): string {
    f.image + ['|'] + (f.detail + ['|'] + ExitText(f.exitCode))
  }

  function PodSignature(pod: Pod): string {
    var f := FirstFailure(pod);
    if f.Some? then Signature(f.value) else ""
  }

  // ---- Numbers can be read back ----

  function Value(s: string): int {
    if s == [] then 0 else 10 * Value(s[..|s| - 1]) + (s[|s| - 1] as int - '0' as int)
  }

  predicate IsDigit(c: char) {
    '0' <= c <= '9'
  }

  lemma {:induction false} DigitsValue(n: nat)
    ensures |Digits(n)| > 0 && Value(Digits(n)) == n
    ensures forall i :: 0 <= i < |Digits(n)| ==> IsDigit(Digits(n)[i])
  {
    if n >= 10 {
      DigitsValue(n / 10);
      assert Digits(n)[..|Digits(n)| - 1] == Digits(n / 10);
    } else {
      assert Digits(n)[..0] == [];
    }
  }

  lemma DecimalInjective(a: int, b: int)
    requires Decimal(a) == Decimal(b)
    ensures a == b
  {
    DigitsValue(if a < 0 then -a else a);
    DigitsValue(if b < 0 then -b else b);
    assert a < 0 ==> Decimal(a)[0] == '-' && Decimal(a)[1..] == Digits(-a);
    assert b < 0 ==> Decimal(b)[0] == '-' && Decimal(b)[1..] == Digits(-b);
  }

  lemma ExitTextBarFree(e: Option<int>)
    ensures '|' !in ExitText(e) && |ExitText(e)| > 0
    ensures e.Some? ==> ExitText(e)[0] != 'n'
  {
    if e.Some? {
      DigitsValue(if e.value < 0 then -e.value else e.value);
    }
  }

  lemma ExitTextInjective(a: Option<int>, b: Option<int>)
    requires ExitText(a) == ExitText(b)
    ensures a == b
  {
    ExitTextBarFree(a);
    ExitTextBarFree(b);
    if a.Some? && b.Some? {
      DecimalInjective(a.value, b.value);
    }
  }

  lemma KindTextInjective(a: FailureKind, b: FailureKind)
    requires KindText(a) == KindText(b)
    ensures a == b
  {
    assert KindText(a)[0] == KindText(b)[0] && KindText(a)[1] == KindText(b)[1];
  }

  // ---- The fingerprint identifies the diagnosis ----

  /** A text with the separator ends at its last separator when the tail has none. */
  lemma CutLast(a: string, b: string, x: string, y: string)
    requires a + ['|'] + x == b + ['|'] + y && '|' !in x && '|' !in y
    ensures a == b && x == y
  {
    var s, t := a + ['|'] + x, b + ['|'] + y;
    assert s[|a|] == '|' && t[|b|] == '|';
    assert forall i :: |a| < i < |s| ==> s[i] == x[i - |a| - 1];
    assert forall i :: |b| < i < |t| ==> t[i] == y[i - |b| - 1];
    assert |a| == |b|;
    assert a == s[..|a|] && b == t[..|b|] && x == s[|a| + 1..] && y == t[|b| + 1..];
  }

  predicate BarFree(f: Failure) {
    '|' !in f.container && '|' !in f.image
  }

  /** Equal up to the restart count. */
  predicate SameFailure(f: Failure, g: Failure) {
    f == g.(restarts := f.restarts)
  }

  lemma SignatureInjective(f: Failure, g: Failure)
    requires BarFree(f) && BarFree(g) && f.pod == g.pod
    ensures Signature(f) == Signature(g) <==> SameFailure(f, g)
  {
    if Signature(f) == Signature(g) {
      Strings.CutUnique(KindText(f.kind), KindText(g.kind), '|', AfterKind(f), AfterKind(g));
      KindTextInjective(f.kind, g.kind);
      RestInjective(f, g);
    }
  }

  lemma RestInjective(f: Failure, g: Failure)
    requires BarFree(f) && BarFree(g)
    requires AfterKind(f) == AfterKind(g)
    ensures f.container == g.container && f.initial == g.initial && f.image == g.image
    ensures f.detail == g.detail && f.exitCode == g.exitCode
  {
    Strings.CutUnique(
      f.container, g.container, '|', BoolText(f.initial) + ['|'] + AfterInit(f), BoolText(g.initial) + ['|']
        + AfterInit(g));
    Strings.CutUnique(BoolText(f.initial), BoolText(g.initial), '|', AfterInit(f), AfterInit(g));
    assert BoolText(f.initial)[0] == BoolText(g.initial)[0];
    Strings.CutUnique(
      f.image, g.image, '|', f.detail + ['|'] + ExitText(f.exitCode), g.detail + ['|'] + ExitText(g.exitCode));
    ExitTextBarFree(f.exitCode);
    ExitTextBarFree(g.exitCode);
    CutLast(f.detail, g.detail, ExitText(f.exitCode), ExitText(g.exitCode));
    ExitTextInjective(f.exitCode, g.exitCode);
  }

  // ---- The watch predicate ----

  predicate StatusesBarFree(statuses: seq<ContainerStatus>) {
    forall i :: 0 <= i < |statuses| ==> '|' !in statuses[i].name && '|' !in statuses[i].image
  }

  predicate PodBarFree(p: Pod) {
    StatusesBarFree(p.initContainers) && StatusesBarFree(p.containers)
  }

  lemma {:induction false} FirstOfFacts(statuses: seq<ContainerStatus>, pod: string, initial: bool)
    requires StatusesBarFree(statuses)
    ensures var f := FirstOf(statuses, pod, initial);
      f.Some? ==> f.value.pod == pod && BarFree(f.value)
  {
    if statuses != [] {
      FirstOfFacts(statuses[1..], pod, initial);
    }
  }

  lemma FirstFailureFacts(p: Pod)
    requires PodBarFree(p)
    ensures var f := FirstFailure(p);
      f.Some? ==> f.value.pod == p.name && BarFree(f.value)
  {
    FirstOfFacts(p.initContainers, p.name, true);
    FirstOfFacts(p.containers, p.name, false);
  }

  lemma SignatureNotEmpty(f: Failure)
    ensures Signature(f) != ""
  {
    assert |Signature(f)| >= 1;
  }

  predicate SameDiagnosis(f: Option<Failure>, g: Option<Failure>) {
    if f.Some? && g.Some? then SameFailure(f.value, g.value) else f == g
  }

  /** For one pod the fingerprint changes exactly when its diagnosis does. */
  lemma SignatureTracksDiagnosis(p: Pod, q: Pod)
    requires p.name == q.name && PodBarFree(p) && PodBarFree(q)
    ensures PodSignature(p) == PodSignature(q) <==> SameDiagnosis(FirstFailure(p), FirstFailure(q))
  {
    FirstFailureFacts(p);
    FirstFailureFacts(q);
    var f, g := FirstFailure(p), FirstFailure(q);
    if f.Some? {
      SignatureNotEmpty(f.value);
    }
    if g.Some? {
      SignatureNotEmpty(g.value);
    }
    if f.Some? && g.Some? {
      SignatureInjective(f.value, g.value);
    }
  }

  datatype PodEvent =
    | Created(at: nat, pod: Pod)
    | Updated(at: nat, pod: Pod)
    | Deleted(at: nat, stateUnknown: bool)

  /** The listed pods after the event, whatever position listing gives a new pod. */
  function Apply(pods: seq<Pod>, e: PodEvent): seq<Pod>
    requires Possible(pods, e)
  {
    match e
    case Created(at, pod) => pods[..at] + [pod] + pods[at..]
    case Updated(at, pod) => pods[..at] + [pod] + pods[at + 1..]
    case Deleted(at, _) => pods[..at] + pods[at + 1..]
  }

  predicate Possible(pods: seq<Pod>, e: PodEvent) {
    match e
    case Created(at, pod) => at <= |pods| && PodBarFree(pod)
    case Updated(at, pod) => at < |pods| && pods[at].name == pod.name && PodBarFree(pod)
    case Deleted(at, _) => at < |pods|
  }

  /** podDiagnosticsChangedPredicate. */
  predicate Passes(pods: seq<Pod>, e: PodEvent)
    requires Possible(pods, e)
  {
    match e
    case Created(at, pod) => PodSignature(pod) != ""
    case Updated(at, pod) => PodSignature(pods[at]) != PodSignature(pod)
    case Deleted(at, unknown) => unknown || PodSignature(pods[at]) != ""
  }

  lemma {:induction false} DiagnoseAppend(a: seq<Pod>, b: seq<Pod>)
    ensures Diagnose(a + b) == if Diagnose(a).Some? then Diagnose(a) else Diagnose(b)
  {
    if a == [] {
      assert a + b == b;
    } else {
      DiagnoseAppend(a[1..], b);
      assert (a + b)[1..] == a[1..] + b;
    }
  }

  lemma DiagnoseAround(a: seq<Pod>, p: Pod, b: seq<Pod>)
    ensures Diagnose(a + [p] + b) ==
      if Diagnose(a).Some? then Diagnose(a) else if FirstFailure(p).Some? then FirstFailure(p) else Diagnose(b)
  {
    DiagnoseAppend(a + [p], b);
    DiagnoseAppend(a, [p]);
  }

  lemma HealthyPodIrrelevant(a: seq<Pod>, p: Pod, b: seq<Pod>)
    requires PodSignature(p) == ""
    ensures Diagnose(a + [p] + b) == Diagnose(a + b)
  {
    HealthyUnlessSigned(p);
    DiagnoseAround(a, p, b);
    DiagnoseAppend(a, b);
  }

  lemma SameSignatureIrrelevant(a: seq<Pod>, p: Pod, q: Pod, b: seq<Pod>)
    requires p.name == q.name && PodBarFree(p) && PodBarFree(q) && PodSignature(p) == PodSignature(q)
    ensures SameDiagnosis(Diagnose(a + [p] + b), Diagnose(a + [q] + b))
  {
    SignatureTracksDiagnosis(p, q);
    DiagnoseAround(a, p, b);
    DiagnoseAround(a, q, b);
  }

  lemma Split(pods: seq<Pod>, at: nat)
    requires at <= |pods|
    ensures pods == pods[..at] + pods[at..]
    ensures at < |pods| ==> pods == pods[..at] + [pods[at]] + pods[at + 1..]
  {
  }

  lemma SameDiagnosisReflexive(f: Option<Failure>)
    ensures SameDiagnosis(f, f)
  {
  }

  /** An event the watch drops leaves the reported diagnosis as it was, except for its restart count. */
  lemma DroppedEventKeepsDiagnosis(pods: seq<Pod>, e: PodEvent)
    requires Possible(pods, e) && !Passes(pods, e)
    requires forall i :: 0 <= i < |pods| ==> PodBarFree(pods[i])
    ensures SameDiagnosis(Diagnose(pods), Diagnose(Apply(pods, e)))
  {
    Split(pods, e.at);
    SameDiagnosisReflexive(Diagnose(pods));
    if e.Created? {
      HealthyPodIrrelevant(pods[..e.at], e.pod, pods[e.at..]);
    } else if e.Updated? {
      SameSignatureIrrelevant(pods[..e.at], pods[e.at], e.pod, pods[e.at + 1..]);
    } else {
      HealthyPodIrrelevant(pods[..e.at], pods[e.at], pods[e.at + 1..]);
    }
  }

  lemma HealthyUnlessSigned(p: Pod)
    ensures PodSignature(p) == "" <==> FirstFailure(p).None?
  {
    if FirstFailure(p).Some? {
      SignatureNotEmpty(FirstFailure(p).value);
    }
  }

  /** The watch passes an event exactly when it concerns a failing pod, or one whose diagnosis changes. */
  lemma PassesExactly(pods: seq<Pod>, e: PodEvent)
    requires Possible(pods, e) && forall i :: 0 <= i < |pods| ==> PodBarFree(pods[i])
    ensures Passes(pods, e) <==>
      match e
      case Created(_, pod) => FirstFailure(pod).Some?
      case Updated(at, pod) => !SameDiagnosis(FirstFailure(pods[at]), FirstFailure(pod))
      case Deleted(at, unknown) => unknown || FirstFailure(pods[at]).Some?
  {
    match e
    case Created(_, pod) => HealthyUnlessSigned(pod);
    case Updated(at, pod) => SignatureTracksDiagnosis(pods[at], pod);
    case Deleted(at, _) => HealthyUnlessSigned(pods[at]);
  }

  /** A sequence of events, all dropped. */
  predicate Dropped(pods: seq<Pod>, es: seq<PodEvent>)
    decreases |es|
  {
    es == [] || (Possible(pods, es[0]) && !Passes(pods, es[0]) && Dropped(Apply(pods, es[0]), es[1..]))
  }

  function ApplyAll(pods: seq<Pod>, es: seq<PodEvent>): seq<Pod>
    requires Dropped(pods, es)
    decreases |es|
  {
    if es == [] then pods else ApplyAll(Apply(pods, es[0]), es[1..])
  }

  /** However many events are dropped in a row, the diagnosis last reported still holds. */
  lemma {:induction false} DroppedEventsKeepDiagnosis(pods: seq<Pod>, es: seq<PodEvent>)
    requires Dropped(pods, es)
    requires forall i :: 0 <= i < |pods| ==> PodBarFree(pods[i])
    ensures SameDiagnosis(Diagnose(pods), Diagnose(ApplyAll(pods, es)))
    decreases |es|
  {
    if es != [] {
      DroppedEventKeepsDiagnosis(pods, es[0]);
      DroppedEventsKeepDiagnosis(Apply(pods, es[0]), es[1..]);
    }
  }

  // ---- The message ----

  /** Every message ends by naming the pod. */
  function InPod(f: Failure): string {
    " (pod: " + f.pod + ")"
  }

  /** A text, a number and the rest. */
  function Numbered(text: string, n: int, rest: string): string {
    text + Decimal(n) + rest
  }

  /** Message; quote is the %q verb. */
  function Message(f: Failure, quote: string -> string): string {
    var restarts := Numbered("restarts: ", f.restarts, InPod(f));
    match f.kind
    case ImagePull => "Image pull failed for " + quote(f.image) + (": " + f.detail + InPod(f))
    case CrashLoop =>
      if f.exitCode.Some? then Numbered("Container crashing: exit code ", f.exitCode.value, ", " + restarts)
      else "Container crashing: " + restarts
    case ConfigError => "Container config error: " + f.detail + InPod(f)
    case OOMKilled =>
      Numbered("Container OOMKilled: exit code ", if f.exitCode.Some? then f.exitCode.value else 0, ", " + restarts)
    case NotReady => "Container not passing health checks: " + restarts
  }

  /** So the message shown differs, if at all, only in the restart count it quotes. */
  lemma DroppedEventsKeepMessage(pods: seq<Pod>, es: seq<PodEvent>, quote: string -> string)
    requires Dropped(pods, es)
    requires forall i :: 0 <= i < |pods| ==> PodBarFree(pods[i])
    ensures Diagnose(pods).Some? <==> Diagnose(ApplyAll(pods, es)).Some?
    ensures Diagnose(pods).Some? ==>
      var f, g := Diagnose(pods).value, Diagnose(ApplyAll(pods, es)).value;
      Message(f, quote) == Message(g.(restarts := f.restarts), quote)
  {
    DroppedEventsKeepDiagnosis(pods, es);
  }

  /** The text occurs in the message. */
  ghost predicate Mentions(message: string, text: string) {
    exists i, j :: 0 <= i <= j <= |message| && message[i..j] == text
  }

  lemma MentionsAt(a: string, x: string, b: string)
    ensures Mentions(a + x + b, x)
  {
    assert (a + x + b)[|a|..|a| + |x|] == x;
  }

  lemma MentionsLater(a: string, message: string, x: string)
    requires Mentions(message, x)
    ensures Mentions(a + message, x)
  {
    var i, j :| 0 <= i <= j <= |message| && message[i..j] == x;
    assert (a + message)[|a| + i..|a| + j] == x;
  }

  lemma NumberedMentions(text: string, n: int, rest: string, x: string)
    ensures Mentions(Numbered(text, n, rest), Decimal(n))
    ensures Mentions(rest, x) ==> Mentions(Numbered(text, n, rest), x)
  {
    MentionsAt(text, Decimal(n), rest);
    if Mentions(rest, x) {
      MentionsLater(text + Decimal(n), rest, x);
    }
  }

  /** The part about restarts, which ends by naming the pod. */
  lemma RestartsMentioned(f: Failure, text: string)
    ensures Mentions(text + Numbered("restarts: ", f.restarts, InPod(f)), Decimal(f.restarts))
    ensures Mentions(text + Numbered("restarts: ", f.restarts, InPod(f)), f.pod)
  {
    var r := Numbered("restarts: ", f.restarts, InPod(f));
    MentionsAt(" (pod: ", f.pod, ")");
    NumberedMentions("restarts: ", f.restarts, InPod(f), f.pod);
    MentionsLater(text, r, Decimal(f.restarts));
    MentionsLater(text, r, f.pod);
  }

  lemma DetailMentioned(f: Failure, text: string)
    ensures Mentions(text + f.detail + InPod(f), f.detail) && Mentions(text + f.detail + InPod(f), f.pod)
  {
    MentionsAt(text, f.detail, InPod(f));
    MentionsAt(" (pod: ", f.pod, ")");
    MentionsLater(text + f.detail, InPod(f), f.pod);
  }

  /** The message names the pod, and whatever its kind of failure makes worth knowing. */
  lemma MessageTells(f: Failure, quote: string -> string)
    ensures Mentions(Message(f, quote), f.pod)
    ensures f.kind == ImagePull ==> Mentions(Message(f, quote), quote(f.image))
    ensures f.kind == ImagePull || f.kind == ConfigError ==> Mentions(Message(f, quote), f.detail)
    ensures f.kind in {CrashLoop, OOMKilled, NotReady} ==> Mentions(Message(f, quote), Decimal(f.restarts))
    ensures f.kind in {CrashLoop, OOMKilled} && f.exitCode.Some? ==>
      Mentions(Message(f, quote), Decimal(f.exitCode.value))
  {
    var restarts := Numbered("restarts: ", f.restarts, InPod(f));
    match f.kind
    case ImagePull =>
      DetailMentioned(f, ": ");
      MentionsAt("Image pull failed for ", quote(f.image), ": " + f.detail + InPod(f));
      MentionsLater("Image pull failed for " + quote(f.image), ": " + f.detail + InPod(f), f.detail);
      MentionsLater("Image pull failed for " + quote(f.image), ": " + f.detail + InPod(f), f.pod);
    case ConfigError => DetailMentioned(f, "Container config error: ");
    case NotReady => RestartsMentioned(f, "Container not passing health checks: ");
    case CrashLoop =>
      RestartsMentioned(f, "Container crashing: ");
      CodeMentioned(f, "Container crashing: exit code ");
    case OOMKilled =>
      CodeMentioned(f, "Container OOMKilled: exit code ");
  }

  lemma CodeMentioned(f: Failure, text: string)
    ensures var code := if f.exitCode.Some? then f.exitCode.value else 0;
      var m := Numbered(text, code, ", " + Numbered("restarts: ", f.restarts, InPod(f)));
      Mentions(m, Decimal(code)) && Mentions(m, Decimal(f.restarts)) && Mentions(m, f.pod)
  {
    var code := if f.exitCode.Some? then f.exitCode.value else 0;
    var rest := ", " + Numbered("restarts: ", f.restarts, InPod(f));
    RestartsMentioned(f, ", ");
    NumberedMentions(text, code, rest, Decimal(f.restarts));
    NumberedMentions(text, code, rest, f.pod);
  }

  /** Without the assumption on names the fingerprint is ambiguous. */
  lemma BarInNameCollides()
    ensures var f := Failure(NotReady, "p", "a|true|b", true, "c", "", None, 1);
      var g := Failure(NotReady, "p", "a", true, "b|true|c", "", None, 1);
      Signature(f) == Signature(g) && !SameFailure(f, g)
  {
    var f := Failure(NotReady, "p", "a|true|b", true, "c", "", None, 1);
    var g := Failure(NotReady, "p", "a", true, "b|true|c", "", None, 1);
    assert |f.container| == 8 && |g.container| == 1;
    assert Signature(f) == "NotReady|a|true|b|true|c||none";
    assert Signature(g) == "NotReady|a|true|b|true|c||none";
  }
}
