/**
 Streaks of failed handshakes at one generation: the retry count, the back-off schedule
 and the events, over reconcile sequences of any length.
 */
module HandshakeStreaks {
  import opened Wrappers
  import opened Conditions
  import opened Availability
  import opened Reconcile
  import opened ReconcileStatus

  // ---- Runs and streaks ----

  /** A reconcile that took place, with what it did. */
  datatype Taken = Taken(input: Input, result: Result)

  function End(s: State, run: seq<Taken>): State {
    if run == [] then s else run[|run| - 1].result.state
  }

  /** The reconciles follow one another from the given state. */
  predicate IsRun(s: State, run: seq<Taken>) {
    run == [] ||
    (var front, last := run[..|run| - 1], run[|run| - 1];
     IsRun(s, front) && last.result == Step(End(s, front), last.input))
  }

  predicate Fails(r: Result) {
    r.handshake.Some? && r.handshake.value.verified.status == StatusFalse
      && r.handshake.value.verified.reason == EndpointUnavailable
  }

  /** Every reconcile either fails its handshake or returns before attempting one. */
  predicate Streak(run: seq<Taken>) {
    forall n :: 0 <= n < |run| ==> run[n].input.path.Endpoint? ==> Fails(run[n].result)
  }

  function Failures(run: seq<Taken>): nat {
    if run == [] then 0
    else Failures(run[..|run| - 1]) + if run[|run| - 1].input.path.Endpoint? then 1 else 0
  }

  /** No retries counted at this generation yet. */
  predicate NoRetries(s: State) {
    s.server.Some? && (s.retry.Some? ==> s.retry.value.generation != s.server.value.generation)
  }

  // ---- 32-bit counts ----

  /** A count as a signed 32-bit integer holds it. */
  function Wrap32(k: nat): int {
    (k + 0x8000_0000) % 0x1_0000_0000 - 0x8000_0000
  }

  lemma WrapValue(k: nat)
    ensures var r := k % 0x1_0000_0000;
      Wrap32(k) == if r < 0x8000_0000 then r else r - 0x1_0000_0000
  {
  }

  lemma NextRemainder(k: nat)
    ensures var r := k % 0x1_0000_0000;
      (k + 1) % 0x1_0000_0000 == if r == 0xffff_ffff then 0 else r + 1
  {
  }

  lemma NextWraps(k: nat)
    ensures Next32(Wrap32(k)) == Wrap32(k + 1)
  {
    WrapValue(k);
    WrapValue(k + 1);
    NextRemainder(k);
  }

  /** The exhausted event of the k-th failure. */
  function ExhaustedAt(k: nat): Option<int> {
    if k % 0x1_0000_0000 == 10 then Some(10) else None
  }

  predicate CrossesLimit(k: nat) {
    k % 0x1_0000_0000 == 10 || k % 0x1_0000_0000 == 0x8000_0000
  }

  lemma WrapCrossing(k: nat)
    ensures Wrap32(k + 1) >= MAX_RETRIES && Wrap32(k) < MAX_RETRIES <==> (k + 1) % 0x1_0000_0000 == 10
    ensures (k + 1) % 0x1_0000_0000 == 10 ==> Wrap32(k + 1) == 10
    ensures (Wrap32(k + 1) >= MAX_RETRIES <==> Wrap32(k) >= MAX_RETRIES) <==> !CrossesLimit(k + 1)
  {
    WrapValue(k);
    WrapValue(k + 1);
    NextRemainder(k);
  }

  // ---- The schedule ----

  function Pow2(n: nat): nat {
    if n == 0 then 1 else 2 * Pow2(n - 1)
  }

  function Min(a: int, b: int): int {
    if a < b then a else b
  }

  lemma {:induction false} DoubledIsPower(n: nat)
    ensures Doubled(n) == 10 * Pow2(n)
  {
    if n > 0 {
      DoubledIsPower(n - 1);
    }
  }

  /** What the k-th failure asks for; past 2^31 failures the 32-bit count has wrapped. */
  function Schedule(k: nat): Requeue
    requires k > 0
  {
    if k < 10 then After(Min(10 * Pow2(k - 1), 120))
    else if k < 0x8000_0000 then Done
    else if Wrap32(k) >= 10 then Done
    else if Wrap32(k) > 0 then After(Min(10 * Pow2(Wrap32(k) - 1), 120))
    else After(10)
  }

  lemma RequeueFollowsSchedule(verified: Condition, k: nat)
    requires k > 0 && verified.status == StatusFalse && verified.reason == EndpointUnavailable
    ensures HandshakeRequeue(verified, Wrap32(k)) == Some(Schedule(k))
  {
    if 0 < Wrap32(k) < 10 {
      DoubledIsPower(Wrap32(k) - 1);
    }
  }

  // ---- One failure ----

  /** The bookkeeping of a failure after k failures. */
  lemma FailureBook(server: Server, retry: Option<Retry>, verified: Condition, k: nat)
    requires verified.reason == EndpointUnavailable && verified.status == StatusFalse
    requires if k == 0 then retry.Some? ==> retry.value.generation != server.generation
      else retry == Some(Retry(server.generation, Wrap32(k)))
    ensures var b := CountRetry(server, retry, verified);
      && b.retry == Some(Retry(server.generation, Wrap32(k + 1))) && b.count == Wrap32(k + 1)
      && b.events.exhausted == ExhaustedAt(k + 1)
      && b.events.failed
        == (if AlreadyReported(server, Note(verified.message, Wrap32(k + 1))) then None else Some(verified.message))
      && b.verified.message == Note(verified.message, Wrap32(k + 1))
  {
    NextWraps(k);
    WrapCrossing(k);
  }

  predicate Counted(s: State, start: State, k: nat) {
    && s.server.Some? && start.server.Some? && s.server.value.generation == start.server.value.generation
    && s.retry == if k == 0 then start.retry else Some(Retry(s.server.value.generation, Wrap32(k)))
  }

  /** Paths that end before any status is written. */
  predicate NoStatus(p: Path) {
    p.Terminating? || p.Transient? || (p.ResourceFailed? && p.cause == UpdateConflict)
  }

  /** What a reconcile does to the bookkeeping, without the status it assembles. */
  predicate Keeps(s: State, i: Input, r: Result) {
    && s.server.Some? && r.state.server.Some? && r.state.server.value.generation == s.server.value.generation
    && (!i.path.Endpoint? ==> r.state.retry == s.retry)
    && (NoStatus(i.path) ==> r.state == s)
  }

  predicate Books(s: State, i: Input, r: Result)
    requires s.server.Some? && r.state.server.Some? && Fails(r)
  {
    var b := CountRetry(s.server.value, s.retry, r.handshake.value.verified);
    && r.state.retry == b.retry && r.events == b.events
    && Some(r.requeue) == (if i.write == Committed then HandshakeRequeue(b.verified, b.count) else Some(WithError))
    && (i.write == Committed ==> AlreadyReported(r.state.server.value, b.verified.message))
  }

  predicate Lawful(s: State, i: Input, r: Result) {
    Keeps(s, i, r) && (i.path.Endpoint? && Fails(r) ==> Books(s, i, r))
  }

  /** The failing handshake is the one bookkeeping sees. */
  lemma StepReported(s: State, i: Input, r: Reached)
    requires s.server.Some? && i.path == Endpoint(r) && Fails(Step(s, i)) && i.write == Committed
    ensures Step(s, i).state.server.Some?
    ensures var b := CountRetry(s.server.value, s.retry, Step(s, i).handshake.value.verified);
      AlreadyReported(Step(s, i).state.server.value, b.verified.message)
  {
    assert Find(Step(s, i).applied.value.conditions, Verified)
        == Some(CountRetry(s.server.value, s.retry, Step(s, i).handshake.value.verified).verified) by {
      EndpointStatus(s, i, r);
    }
  }

  lemma StepBooks(s: State, i: Input, r: Reached)
    requires s.server.Some? && i.path == Endpoint(r) && Fails(Step(s, i))
    ensures Step(s, i).state.server.Some? && Books(s, i, Step(s, i))
  {
    if i.write == Committed {
      StepReported(s, i, r);
    }
  }

  lemma EndpointKeeps(s: State, i: Input, r: Reached)
    requires s.server.Some? && i.path == Endpoint(r)
    ensures Keeps(s, i, Step(s, i))
  {
    var e := ReconcileEndpoint(s.server.value, s.retry, s.caHash, r, i.policy, i.now);
    assert Step(s, i).state.server == Store(s, e.status, i.write).server;
  }

  lemma EarlyExitKeeps(s: State, i: Input)
    requires s.server.Some? && !i.path.Endpoint?
    ensures Keeps(s, i, Step(s, i))
  {
  }

  lemma StepKeeps(s: State, i: Input)
    requires s.server.Some?
    ensures Keeps(s, i, Step(s, i))
  {
    if i.path.Endpoint? {
      EndpointKeeps(s, i, i.path.reached);
    } else {
      EarlyExitKeeps(s, i);
    }
  }

  lemma StepLawful(s: State, i: Input)
    requires s.server.Some?
    ensures Lawful(s, i, Step(s, i))
  {
    StepKeeps(s, i);
    if i.path.Endpoint? && Fails(Step(s, i)) {
      StepBooks(s, i, i.path.reached);
    }
  }

  predicate IsLawful(s: State, run: seq<Taken>) {
    run == [] ||
    (var front, last := run[..|run| - 1], run[|run| - 1];
     IsLawful(s, front) && Lawful(End(s, front), last.input, last.result))
  }

  lemma {:induction false} RunLawful(s: State, run: seq<Taken>)
    requires s.server.Some? && IsRun(s, run)
    ensures IsLawful(s, run) && End(s, run).server.Some?
  {
    if run != [] {
      var front, last := run[..|run| - 1], run[|run| - 1];
      RunLawful(s, front);
      StepLawful(End(s, front), last.input);
    }
  }

  lemma FailureStep(s: State, i: Input, r: Result, start: State, k: nat)
    requires NoRetries(start) && Counted(s, start, k) && i.path.Endpoint? && Fails(r) && Lawful(s, i, r)
    ensures Counted(r.state, start, k + 1)
    ensures r.requeue == if i.write == Committed then Schedule(k + 1) else WithError
    ensures r.events.exhausted == ExhaustedAt(k + 1)
    ensures var text := r.handshake.value.verified.message;
      && r.events.failed == (if AlreadyReported(s.server.value, Note(text, Wrap32(k + 1))) then None else Some(text))
      && (i.write == Committed ==> AlreadyReported(r.state.server.value, Note(text, Wrap32(k + 1))))
  {
    var verified := r.handshake.value.verified;
    FailureBook(s.server.value, s.retry, verified, k);
    RequeueFollowsSchedule(CountRetry(s.server.value, s.retry, verified).verified, k + 1);
  }

  // ---- Every failure of a streak ----

  lemma {:induction false} StreakCounted(s: State, run: seq<Taken>)
    requires NoRetries(s) && IsLawful(s, run) && Streak(run)
    ensures Counted(End(s, run), s, Failures(run))
    decreases |run|
  {
    if run != [] {
      var front, last := run[..|run| - 1], run[|run| - 1];
      StreakCounted(s, front);
      if last.input.path.Endpoint? {
        FailureStep(End(s, front), last.input, last.result, s, Failures(front));
      }
    }
  }

  /** The retry entry counts exactly the failures of the streak. */
  lemma RetriesCountFailures(s: State, run: seq<Taken>)
    requires NoRetries(s) && IsRun(s, run) && Streak(run) && Failures(run) > 0
    ensures End(s, run).retry == Some(Retry(s.server.value.generation, Wrap32(Failures(run))))
  {
    RunLawful(s, run);
    StreakCounted(s, run);
  }

  predicate EndsInFailure(run: seq<Taken>) {
    run != [] && run[|run| - 1].input.path.Endpoint?
  }

  lemma LastFailure(s: State, run: seq<Taken>)
    requires NoRetries(s) && IsLawful(s, run) && Streak(run) && EndsInFailure(run)
    ensures Failures(run) > 0
    ensures var last := run[|run| - 1];
      && last.result.requeue == (if last.input.write == Committed then Schedule(Failures(run)) else WithError)
      && last.result.events.exhausted == ExhaustedAt(Failures(run))
  {
    var front, last := run[..|run| - 1], run[|run| - 1];
    StreakCounted(s, front);
    FailureStep(End(s, front), last.input, last.result, s, Failures(front));
  }

  /** The k-th failure of a streak: its requeue, and the exhausted event once in every 2^32 failures. */
  lemma KthFailure(s: State, run: seq<Taken>)
    requires NoRetries(s) && IsRun(s, run) && Streak(run) && EndsInFailure(run)
    ensures Failures(run) > 0
    ensures var last := run[|run| - 1];
      && last.result.requeue == (if last.input.write == Committed then Schedule(Failures(run)) else WithError)
      && last.result.events.exhausted == ExhaustedAt(Failures(run))
  {
    RunLawful(s, run);
    LastFailure(s, run);
  }

  // ---- The total delay ----

  function Seconds(r: Requeue): int {
    if r.After? then r.seconds else 0
  }

  /** Seconds requested by the failures of a run. */
  function Waited(run: seq<Taken>): int {
    if run == [] then 0
    else
      var last := run[|run| - 1];
      Waited(run[..|run| - 1]) + if last.input.path.Endpoint? then Seconds(last.result.requeue) else 0
  }

  function Scheduled(k: nat): int {
    if k == 0 then 0 else Scheduled(k - 1) + Seconds(Schedule(k))
  }

  predicate AllCommitted(run: seq<Taken>) {
    forall n :: 0 <= n < |run| ==> run[n].input.write == Committed
  }

  lemma {:induction false} WaitedIsScheduled(s: State, run: seq<Taken>)
    requires NoRetries(s) && IsLawful(s, run) && Streak(run) && AllCommitted(run)
    ensures Waited(run) == Scheduled(Failures(run))
    decreases |run|
  {
    if run != [] {
      WaitedIsScheduled(s, run[..|run| - 1]);
      if run[|run| - 1].input.path.Endpoint? {
        LastFailure(s, run);
      }
    }
  }

  lemma {:induction false} ScheduledTotal(k: nat)
    requires 9 <= k < 0x8000_0000
    ensures Scheduled(k) == 750
    decreases k
  {
    if k > 9 {
      ScheduledTotal(k - 1);
    } else {
      assert Pow2(0) == 1 && Pow2(1) == 2 && Pow2(2) == 4 && Pow2(3) == 8;
      assert Pow2(4) == 16 && Pow2(5) == 32 && Pow2(6) == 64 && Pow2(7) == 128 && Pow2(8) == 256;
      assert Scheduled(0) == 0 && Scheduled(1) == 10 && Scheduled(2) == 30 && Scheduled(3) == 70 && Scheduled(4) == 150;
      assert Scheduled(5) == 270 && Scheduled(6) == 390 && Scheduled(7) == 510 && Scheduled(8) == 630;
    }
  }

  /** A streak that runs out of retries has asked for 750 seconds, however much longer it lasts. */
  lemma StreakTotal(s: State, run: seq<Taken>)
    requires NoRetries(s) && IsRun(s, run) && Streak(run) && AllCommitted(run)
    requires 9 <= Failures(run) < 0x8000_0000
    ensures Waited(run) == 750
  {
    RunLawful(s, run);
    WaitedIsScheduled(s, run);
    ScheduledTotal(Failures(run));
  }

  // ---- Failure events ----

  predicate FailsWith(t: Taken, text: string) {
    t.input.path.Endpoint? && Fails(t.result) && t.result.handshake.value.verified.message == text
      && t.input.write == Committed
  }

  /** All failures report the same text, are stored, and nothing else writes the status in between. */
  predicate Monotonous(run: seq<Taken>, text: string) {
    forall n :: 0 <= n < |run| ==> NoStatus(run[n].input.path) || FailsWith(run[n], text)
  }

  /** What the stored Verified condition shows after k failures. */
  predicate Reports(s: State, start: State, k: nat, text: string) {
    && s.server.Some?
    && if k == 0 then s == start else AlreadyReported(s.server.value, Note(text, Wrap32(k)))
  }

  lemma MonotonousIsStreak(run: seq<Taken>, text: string)
    requires Monotonous(run, text)
    ensures Streak(run)
  {
  }

  lemma {:induction false} MonotonousReports(s: State, run: seq<Taken>, text: string)
    requires NoRetries(s) && IsLawful(s, run) && Monotonous(run, text)
    ensures Reports(End(s, run), s, Failures(run), text)
    decreases |run|
  {
    if run != [] {
      var front, last := run[..|run| - 1], run[|run| - 1];
      MonotonousReports(s, front, text);
      MonotonousIsStreak(front, text);
      StreakCounted(s, front);
      if last.input.path.Endpoint? {
        FailureStep(End(s, front), last.input, last.result, s, Failures(front));
      }
    }
  }

  lemma NotesDiffer(text: string, a: int, b: int)
    ensures Note(text, a) == Note(text, b) <==> (a >= MAX_RETRIES <==> b >= MAX_RETRIES)
  {
    assert |text + EXHAUSTED_NOTE| > |text|;
  }

  lemma ShownUnlessCrossing(s: State, start: State, k: nat, text: string)
    requires start.server.Some? && !AlreadyReported(start.server.value, text) && Reports(s, start, k, text)
    ensures AlreadyReported(s.server.value, Note(text, Wrap32(k + 1))) <==> k > 0 && !CrossesLimit(k + 1)
  {
    NotesDiffer(text, Wrap32(k + 1), Wrap32(k));
    WrapCrossing(k);
  }

  lemma LastFailureEvents(s: State, run: seq<Taken>, text: string)
    requires NoRetries(s) && !AlreadyReported(s.server.value, text)
    requires IsLawful(s, run) && Monotonous(run, text) && EndsInFailure(run)
    ensures var k := Failures(run);
      run[|run| - 1].result.events == Events(if k == 1 || CrossesLimit(k) then Some(text) else None, ExhaustedAt(k))
  {
    var front, last := run[..|run| - 1], run[|run| - 1];
    MonotonousReports(s, front, text);
    MonotonousIsStreak(front, text);
    StreakCounted(s, front);
    FailureStep(End(s, front), last.input, last.result, s, Failures(front));
    ShownUnlessCrossing(End(s, front), s, Failures(front), text);
  }

  /**
   With a constant error text that the status did not already show, the failure event is
   emitted at the first failure, at the tenth, and then only where the 32-bit count wraps.
   */
  lemma FailureEvents(s: State, run: seq<Taken>, text: string)
    requires NoRetries(s) && !AlreadyReported(s.server.value, text)
    requires IsRun(s, run) && Monotonous(run, text) && EndsInFailure(run)
    ensures var k := Failures(run);
      run[|run| - 1].result.events == Events(if k == 1 || CrossesLimit(k) then Some(text) else None, ExhaustedAt(k))
  {
    RunLawful(s, run);
    LastFailureEvents(s, run, text);
  }

  /** The events of the k-th failure below 2^31. */
  function EarlyEvents(k: nat, text: string): Events {
    Events(if k == 1 || k == 10 then Some(text) else None, if k == 10 then Some(10) else None)
  }

  lemma EarlyEventsExact(k: nat, text: string)
    requires 0 < k < 0x8000_0000
    ensures Events(if k == 1 || CrossesLimit(k) then Some(text) else None, ExhaustedAt(k)) == EarlyEvents(k, text)
  {
  }

  lemma LastEarlyEvents(s: State, run: seq<Taken>, text: string)
    requires NoRetries(s) && !AlreadyReported(s.server.value, text)
    requires IsLawful(s, run) && Monotonous(run, text) && EndsInFailure(run) && Failures(run) < 0x8000_0000
    ensures run[|run| - 1].result.events == EarlyEvents(Failures(run), text)
  {
    LastFailureEvents(s, run, text);
    EarlyEventsExact(Failures(run), text);
  }

  /** Below 2^31 failures the two events single out exactly the first and the tenth. */
  lemma FirstAndTenthOnly(s: State, run: seq<Taken>, text: string)
    requires NoRetries(s) && !AlreadyReported(s.server.value, text)
    requires IsRun(s, run) && Monotonous(run, text) && EndsInFailure(run) && Failures(run) < 0x8000_0000
    ensures run[|run| - 1].result.events == EarlyEvents(Failures(run), text)
  {
    RunLawful(s, run);
    LastEarlyEvents(s, run, text);
  }

  // ---- Streaks of every length exist ----

  /** A serving workload whose endpoint refuses the handshake. */
  function Refusing(text: string): Input {
    Input(0, Endpoint(Reached(DaemonSet(1, 1, 1, 1), "", "http://s", "", TLSReady, Refused(text), NoGateway, None)),
          Report(StatusFalse, Invalid, ""), Committed)
  }

  lemma RefusingFails(s: State, text: string)
    requires s.server.Some? && !HoldsTrue(s.server.value.status.conditions, Verified)
    ensures FailsWith(Taken(Refusing(text), Step(s, Refusing(text))), text)
  {
    var r := Refusing(text).path.reached;
    var available := WorkloadAvailability(s.server.value, r, 0);
    assert available.status == StatusTrue && available.reason == WorkloadAvailable;
    var hs := DoHandshake(s.server.value, s.caHash, r, available, 0);
    assert hs.verified.status == StatusFalse && hs.verified.reason == EndpointUnavailable;
    assert hs.verified.message == text;
  }

  /** The next failure, leaving the server unverified. */
  lemma NextRefusal(s: State, text: string) returns (t: Taken)
    requires s.server.Some? && !HoldsTrue(s.server.value.status.conditions, Verified)
    ensures t.result == Step(s, t.input) && FailsWith(t, text)
    ensures t.result.state.server.Some? && !HoldsTrue(t.result.state.server.value.status.conditions, Verified)
  {
    t := Taken(Refusing(text), Step(s, Refusing(text)));
    RefusingFails(s, text);
    StepLawful(s, Refusing(text));
    ReportedUnverified(s, t.input, t.result);
  }

  lemma ReportedUnverified(s: State, i: Input, r: Result)
    requires Lawful(s, i, r) && i.path.Endpoint? && Fails(r) && i.write == Committed
    ensures r.state.server.Some? && !HoldsTrue(r.state.server.value.status.conditions, Verified)
  {
  }

  lemma MonotonousSnoc(run: seq<Taken>, t: Taken, text: string)
    requires Monotonous(run, text) && FailsWith(t, text)
    ensures Monotonous(run + [t], text) && EndsInFailure(run + [t]) && Failures(run + [t]) == Failures(run) + 1
  {
    assert (run + [t])[..|run|] == run;
  }

  lemma RunSnoc(s: State, run: seq<Taken>, t: Taken)
    requires IsRun(s, run) && t.result == Step(End(s, run), t.input)
    ensures IsRun(s, run + [t]) && End(s, run + [t]) == t.result.state
  {
    assert (run + [t])[..|run|] == run;
  }

  /** From any unverified server, a dial that keeps failing gives a streak of any length. */
  lemma {:induction false} StreaksExist(s: State, n: nat, text: string) returns (run: seq<Taken>)
    requires s.server.Some? && !HoldsTrue(s.server.value.status.conditions, Verified)
    ensures IsRun(s, run) && Monotonous(run, text) && Failures(run) == n && (n > 0 ==> EndsInFailure(run))
    ensures End(s, run).server.Some? && !HoldsTrue(End(s, run).server.value.status.conditions, Verified)
    decreases n
  {
    run := [];
    if n > 0 {
      var front := StreaksExist(s, n - 1, text);
      var last := NextRefusal(End(s, front), text);
      RunSnoc(s, front, last);
      MonotonousSnoc(front, last, text);
      run := front + [last];
    }
  }

  /** Past 2^31 failures the count turns negative and retries start again. */
  lemma CountOverflowResumes(s: State, run: seq<Taken>)
    requires NoRetries(s) && IsRun(s, run) && Streak(run) && EndsInFailure(run) && AllCommitted(run)
    requires Failures(run) == 0x8000_0000
    ensures run[|run| - 1].result.requeue == After(10)
  {
    KthFailure(s, run);
  }
}
