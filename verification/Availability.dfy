/**
 The Available verdict derived from the observed workload, for operator-managed
 Deployments and for referenced Deployments, DaemonSets and StatefulSets.
 */
module Availability {
  import opened Wrappers
  import opened Conditions

  datatype DeploymentConditionType = DeploymentAvailable | DeploymentProgressing | DeploymentReplicaFailure
    | OtherDeploymentCondition
  datatype DeploymentCondition = DeploymentCondition(dtype: DeploymentConditionType, status: Status)

  datatype Workload =
    | Deployment(
        replicas: Option<int>,
        conditions: seq<DeploymentCondition>,
        readyReplicas: int,
        generation: int,
        observedGeneration: int)
    | DaemonSet(
        desiredNumberScheduled: int,
        numberAvailable: int,
        generation: int,
        observedGeneration: int)
    | StatefulSet(
        replicas: Option<int>,
        availableReplicas: int,
        generation: int,
        observedGeneration: int)

  /** extractDeploymentState, restricted to the signal the verdict depends on: the last Available condition. */
  function ReportsAvailable(cs: seq<DeploymentCondition>): bool {
    if cs == [] then false
    else
      var last := cs[|cs| - 1];
      if last.dtype == DeploymentAvailable then last.status == StatusTrue else ReportsAvailable(cs[..|cs| - 1])
  }

  datatype Verdict = Verdict(status: Status, reason: Reason)

  /** reconcileAvailableCondition, for a server whose configuration was accepted. */
  function DeploymentVerdict(d: Workload): Verdict
    requires d.Deployment?
  {
    if d.replicas == Some(0) then Verdict(StatusTrue, ScaledToZero)
    else if |d.conditions| == 0 && d.readyReplicas == 0 then Verdict(StatusUnknown, Initializing)
    else if d.observedGeneration > 0 && d.observedGeneration < d.generation
      then Verdict(StatusFalse, WorkloadUnavailable)
    else if ReportsAvailable(d.conditions) && d.readyReplicas > 0 then Verdict(StatusTrue, WorkloadAvailable)
    else Verdict(StatusFalse, WorkloadUnavailable)
  }

  function ProgressVerdict(generation: int, observedGeneration: int): Option<Verdict> {
    if observedGeneration == 0 then Some(Verdict(StatusUnknown, Initializing))
    else if observedGeneration < generation then Some(Verdict(StatusFalse, WorkloadUnavailable))
    else None
  }

  function DaemonSetVerdict(d: Workload): Verdict
    requires d.DaemonSet?
  {
    var pending := ProgressVerdict(d.generation, d.observedGeneration);
    if pending.Some? then pending.value
    else if d.desiredNumberScheduled == 0 then Verdict(StatusFalse, WorkloadUnavailable)
    else if d.numberAvailable > 0 then Verdict(StatusTrue, WorkloadAvailable)
    else Verdict(StatusFalse, WorkloadUnavailable)
  }

  function StatefulSetVerdict(d: Workload): Verdict
    requires d.StatefulSet?
  {
    if d.replicas == Some(0) then Verdict(StatusTrue, ScaledToZero)
    else
      var pending := ProgressVerdict(d.generation, d.observedGeneration);
      if pending.Some? then pending.value
      else if d.availableReplicas > 0 then Verdict(StatusTrue, WorkloadAvailable)
      else Verdict(StatusFalse, WorkloadUnavailable)
  }

  /** Instances counted as serving: ready for a Deployment, available for the other kinds. */
  function Instances(w: Workload): int {
    match w
    case Deployment(_, _, ready, _, _) => ready
    case DaemonSet(_, available, _, _) => available
    case StatefulSet(_, available, _, _) => available
  }

  /** observeWorkload: availability is only ever claimed for a workload with a serving instance. */
  function AvailableVerdict(w: Workload): (v: Verdict)
    ensures v == Verdict(StatusTrue, WorkloadAvailable) ==> Instances(w) > 0
    ensures v.status == StatusTrue ==> v.reason == WorkloadAvailable || v.reason == ScaledToZero
    ensures v.status == StatusFalse ==> v.reason == WorkloadUnavailable
  {
    match w
    case Deployment(_, _, _, _, _) => DeploymentVerdict(w)
    case DaemonSet(_, _, _, _) => DaemonSetVerdict(w)
    case StatefulSet(_, _, _, _) => StatefulSetVerdict(w)
  }

  // ---- When each verdict is reached ----

  predicate ScaledDown(w: Workload) {
    !w.DaemonSet? && w.replicas == Some(0)
  }

  /** The workload has not reported anything yet. */
  predicate Unreported(w: Workload) {
    if w.Deployment? then |w.conditions| == 0 && w.readyReplicas == 0 else w.observedGeneration == 0
  }

  /** The report is about an older generation; a Deployment that never recorded one is taken as current. */
  predicate Stale(w: Workload) {
    w.observedGeneration < w.generation && (w.Deployment? ==> w.observedGeneration > 0)
  }

  /** The last Available condition of the list is True. */
  ghost predicate AvailableLast(cs: seq<DeploymentCondition>) {
    exists k :: 0 <= k < |cs| && cs[k] == DeploymentCondition(DeploymentAvailable, StatusTrue)
      && forall j :: k < j < |cs| ==> cs[j].dtype != DeploymentAvailable
  }

  lemma {:induction false} ReportsAvailableExact(cs: seq<DeploymentCondition>)
    ensures ReportsAvailable(cs) <==> AvailableLast(cs)
    decreases |cs|
  {
    if cs != [] {
      var front, last := cs[..|cs| - 1], cs[|cs| - 1];
      ReportsAvailableExact(front);
      if last.dtype == DeploymentAvailable {
        if last.status == StatusTrue {
          assert cs[|cs| - 1] == DeploymentCondition(DeploymentAvailable, StatusTrue);
        }
      } else {
        if AvailableLast(front) {
          var k :| 0 <= k < |front| && front[k] == DeploymentCondition(DeploymentAvailable, StatusTrue)
            && forall j :: k < j < |front| ==> front[j].dtype != DeploymentAvailable;
          assert cs[k] == front[k];
        }
        if AvailableLast(cs) {
          var k :| 0 <= k < |cs| && cs[k] == DeploymentCondition(DeploymentAvailable, StatusTrue)
            && forall j :: k < j < |cs| ==> cs[j].dtype != DeploymentAvailable;
          assert front[k] == cs[k];
        }
      }
    }
  }

  /** A current report of at least one serving instance, by each kind's own measure. */
  ghost predicate Serves(w: Workload) {
    && !ScaledDown(w) && !Unreported(w) && !Stale(w) && Instances(w) > 0
    && (w.Deployment? ==> AvailableLast(w.conditions))
    && (w.DaemonSet? ==> w.desiredNumberScheduled != 0)
  }

  /** Each verdict for exactly these workloads. */
  lemma VerdictExact(w: Workload)
    ensures AvailableVerdict(w) == Verdict(StatusTrue, ScaledToZero) <==> ScaledDown(w)
    ensures AvailableVerdict(w) == Verdict(StatusUnknown, Initializing) <==> !ScaledDown(w) && Unreported(w)
    ensures AvailableVerdict(w) == Verdict(StatusTrue, WorkloadAvailable) <==> Serves(w)
    ensures AvailableVerdict(w) == Verdict(StatusFalse, WorkloadUnavailable)
      <==> !ScaledDown(w) && !Unreported(w) && !Serves(w)
  {
    if w.Deployment? {
      ReportsAvailableExact(w.conditions);
    }
  }
}
