/**
 Provider start-up: the registry, the first pass at start-up and the CRD watcher that
 starts the remaining providers once their CRDs are served.
 */
module Providers {
  import opened Wrappers
  import opened Strings

  /** A provider with the kinds it needs; its factory is part of what a pass observes. */
  datatype Registration = Registration(name: string, requiredCRDs: seq<string>)

  datatype Mapping = Served | NoMatch | DiscoveryError

  /** What one pass observes: REST mappings as seen while handling a provider, and factory results. */
  datatype Pass = Pass(mapping: (string, string) -> Mapping, factorySucceeds: string -> bool)

  // ---- missingCRDs ----

  /** The unserved kinds in order; None on a discovery error. */
  function Missing(p: Pass, provider: string, kinds: seq<string>): Option<seq<string>> {
    if kinds == [] then Some([])
    else
      match p.mapping(provider, kinds[0])
      case DiscoveryError => None
      case Served => Missing(p, provider, kinds[1..])
      case NoMatch => Prepended([kinds[0]], Missing(p, provider, kinds[1..]))
  }

  method MissingCRDs(p: Pass, provider: string, kinds: seq<string>) returns (missing: Option<seq<string>>)
    ensures missing == Missing(p, provider, kinds)
  {
    var found: seq<string> := [];
    PrependedNothing(Missing(p, provider, kinds));
    assert kinds[0..] == kinds;
    for i := 0 to |kinds|
      invariant Missing(p, provider, kinds) == Prepended(found, Missing(p, provider, kinds[i..]))
    {
      assert kinds[i..][1..] == kinds[i + 1..];
      var m := p.mapping(provider, kinds[i]);
      if m == Served {
        continue;
      }
      if m == NoMatch {
        PrependedNext(found, kinds[i], Missing(p, provider, kinds[i + 1..]));
        found := found + [kinds[i]];
        continue;
      }
      return None;
    }
    assert found + [] == found;
    return Some(found);
  }

  function Prepended(found: seq<string>, rest: Option<seq<string>>): Option<seq<string>> {
    if rest.None? then None else Some(found + rest.value)
  }

  lemma PrependedNothing(rest: Option<seq<string>>)
    ensures Prepended([], rest) == rest
  {
    if rest.Some? {
      assert [] + rest.value == rest.value;
    }
  }

  lemma PrependedNext(found: seq<string>, k: string, rest: Option<seq<string>>)
    ensures Prepended(found, Prepended([k], rest)) == Prepended(found + [k], rest)
  {
    if rest.Some? {
      assert found + ([k] + rest.value) == found + [k] + rest.value;
    }
  }

  ghost predicate AllServed(p: Pass, r: Registration) {
    forall i :: 0 <= i < |r.requiredCRDs| ==> p.mapping(r.name, r.requiredCRDs[i]) == Served
  }

  lemma {:induction false} NothingMissing(p: Pass, provider: string, kinds: seq<string>)
    ensures Missing(p, provider, kinds) == Some([])
      <==> forall i :: 0 <= i < |kinds| ==> p.mapping(provider, kinds[i]) == Served
  {
    if kinds != [] {
      NothingMissing(p, provider, kinds[1..]);
      assert forall i :: 0 < i < |kinds| ==> kinds[i] == kinds[1..][i - 1];
    }
  }

  // ---- One pass ----

  predicate Ready(p: Pass, r: Registration) {
    Missing(p, r.name, r.requiredCRDs) == Some([])
  }

  predicate Starts(p: Pass, r: Registration) {
    Ready(p, r) && p.factorySucceeds(r.name)
  }

  /** A successful factory call and the pass that made it. */
  datatype Start = Start(provider: Registration, pass: Pass)

  datatype State = State(pending: seq<Registration>, started: set<string>)

  /** Handling the listed providers in order: what stays pending, what is started, which starts were made. */
  datatype Walked = Walked(state: State, starts: seq<Start>)

  function Walk(p: Pass, todo: seq<Registration>, started: set<string>): Walked
    decreases |todo|
  {
    if todo == [] then Walked(State([], started), [])
    else
      var w := Walk(p, todo[..|todo| - 1], started);
      var r := todo[|todo| - 1];
      if r.name in w.state.started then w
      else if Starts(p, r) then Walked(w.state.(started := w.state.started + {r.name}), w.starts + [Start(r, p)])
      else w.(state := w.state.(pending := w.state.pending + [r]))
  }

  /** SetupAll: as a pass over the registry, except that a failing factory aborts start-up. */
  function SetUp(p: Pass, registry: seq<Registration>): Option<Walked>
    decreases |registry|
  {
    if registry == [] then Some(Walked(State([], {}), []))
    else
      var w := SetUp(p, registry[..|registry| - 1]);
      var r := registry[|registry| - 1];
      if w.None? then None
      else if !Ready(p, r) then Some(w.value.(state := w.value.state.(pending := w.value.state.pending + [r])))
      else if !p.factorySucceeds(r.name) then None
      else Some(Walked(w.value.state.(started := w.value.state.started + {r.name}), w.value.starts + [Start(r, p)]))
  }

  const RETRY_SECONDS := 5

  class CRDWatcher {
    var pending: seq<Registration>
    var started: map<string, bool>

    constructor ()
      ensures pending == [] && started == map[]
    {
      pending, started := [], map[];
    }

    /** A missing entry reads as false. */
    function View(): State
      reads this
    {
      State(pending, set n | n in started && started[n])
    }

    method MarkStarted(name: string)
      modifies this`started
      ensures View() == old(View()).(started := old(View()).started + {name})
    {
      started := started[name := true];
    }

    /** Reconcile: requeues exactly when something is still pending. */
    method Reconcile(p: Pass) returns (requeueAfter: int)
      modifies this
      ensures View() == Walk(p, old(pending), old(View()).started).state
      ensures requeueAfter == (if View().pending != [] then RETRY_SECONDS else 0)
    {
      var remaining: seq<Registration> := [];
      for i := 0 to |pending|
        invariant pending == old(pending)
        invariant State(remaining, View().started) == Walk(p, pending[..i], old(View()).started).state
      {
        assert pending[..i + 1][..i] == pending[..i];
        var r := pending[i];
        if r.name in started && started[r.name] {
          continue;
        }
        var missing := MissingCRDs(p, r.name, r.requiredCRDs);
        if missing.None? || |missing.value| > 0 {
          remaining := remaining + [r];
          continue;
        }
        if !p.factorySucceeds(r.name) {
          remaining := remaining + [r];
          continue;
        }
        MarkStarted(r.name);
      }
      assert pending[..|pending|] == pending;
      pending := remaining;
      requeueAfter := if |pending| > 0 then RETRY_SECONDS else 0;
    }

    /** The loop of SetupAll, on a fresh watcher. */
    method SetupAll(registry: seq<Registration>, p: Pass) returns (ok: bool)
      requires View() == State([], {})
      modifies this
      ensures ok <==> SetUp(p, registry).Some?
      ensures ok ==> View() == SetUp(p, registry).value.state
    {
      for i := 0 to |registry|
        invariant SetUp(p, registry[..i]).Some? && View() == SetUp(p, registry[..i]).value.state
      {
        assert registry[..i + 1][..i] == registry[..i];
        var r := registry[i];
        var missing := MissingCRDs(p, r.name, r.requiredCRDs);
        if missing.None? || |missing.value| > 0 {
          pending := pending + [r];
          continue;
        }
        if !p.factorySucceeds(r.name) {
          AbortedStays(p, registry, i + 1);
          return false;
        }
        MarkStarted(r.name);
      }
      assert registry[..|registry|] == registry;
      return true;
    }
  }

  lemma {:induction false} AbortedStays(p: Pass, registry: seq<Registration>, n: nat)
    requires n <= |registry| && SetUp(p, registry[..n]).None?
    ensures SetUp(p, registry).None?
    decreases |registry|
  {
    if n == |registry| {
      assert registry[..n] == registry;
    } else {
      assert registry[..|registry| - 1][..n] == registry[..n];
      AbortedStays(p, registry[..|registry| - 1], n);
    }
  }

  /** Start-up fails exactly when a provider whose kinds are all served cannot be started. */
  lemma {:induction false} SetUpFails(p: Pass, registry: seq<Registration>)
    ensures SetUp(p, registry).None? <==>
      exists i :: 0 <= i < |registry| && AllServed(p, registry[i]) && !p.factorySucceeds(registry[i].name)
    decreases |registry|
  {
    if registry != [] {
      var front, r := registry[..|registry| - 1], registry[|registry| - 1];
      SetUpFails(p, front);
      NothingMissing(p, r.name, r.requiredCRDs);
      assert forall i :: 0 <= i < |front| ==> registry[i] == front[i];
    }
  }

  /** A pass starts exactly the pending providers it sees served and whose factory succeeds. */
  lemma {:induction false} PassStartsExactly(p: Pass, todo: seq<Registration>, started: set<string>, k: nat)
    requires DistinctNames(todo) && k < |todo| && forall r :: r in todo ==> r.name !in started
    ensures todo[k].name in Walk(p, todo, started).state.started <==>
      AllServed(p, todo[k]) && p.factorySucceeds(todo[k].name)
  {
    WalkStarts(p, todo, started, todo[k].name);
    NothingMissing(p, todo[k].name, todo[k].requiredCRDs);
  }

  lemma {:induction false} WalkStarts(p: Pass, todo: seq<Registration>, started: set<string>, n: string)
    requires DistinctNames(todo) && forall r :: r in todo ==> r.name !in started
    ensures n in Walk(p, todo, started).state.started <==>
      n in started || exists i :: 0 <= i < |todo| && todo[i].name == n && Starts(p, todo[i])
    decreases |todo|
  {
    if todo != [] {
      var front, r := todo[..|todo| - 1], todo[|todo| - 1];
      WalkStarts(p, front, started, n);
      WalkStarts(p, front, started, r.name);
      if i :| 0 <= i < |front| && front[i].name == n && Starts(p, front[i]) {
        assert todo[i] == front[i];
      }
      if i :| 0 <= i < |todo| && todo[i].name == n && Starts(p, todo[i]) {
        assert i < |front| ==> front[i] == todo[i];
      }
    }
  }

  // ---- Whole runs ----

  /** The registry after start-up and any number of watcher passes, with every start so far. */
  function Run(registry: seq<Registration>, setup: Pass, passes: seq<Pass>): Option<Walked>
    decreases |passes|
  {
    if passes == [] then SetUp(setup, registry)
    else
      var before := Run(registry, setup, passes[..|passes| - 1]);
      if before.None? then None
      else
        var w := Walk(passes[|passes| - 1], before.value.state.pending, before.value.state.started);
        Some(w.(starts := before.value.starts + w.starts))
  }

  predicate DistinctNames(rs: seq<Registration>) {
    forall i, j :: 0 <= i < j < |rs| ==> rs[i].name != rs[j].name
  }

  ghost predicate StartedName(starts: seq<Start>, n: string) {
    exists i :: 0 <= i < |starts| && starts[i].provider.name == n
  }

  ghost predicate OncePerName(starts: seq<Start>) {
    forall i, j :: 0 <= i < j < |starts| ==> starts[i].provider.name != starts[j].provider.name
  }

  /** Every start is of a registered provider and was made in a pass that saw all its kinds served. */
  ghost predicate Justified(starts: seq<Start>, registry: seq<Registration>) {
    forall i :: 0 <= i < |starts| ==>
      starts[i].provider in registry && AllServed(starts[i].pass, starts[i].provider)
        && starts[i].pass.factorySucceeds(starts[i].provider.name)
  }

  /** Pending and started split the providers handled so far, and the starts are exactly the started ones. */
  ghost predicate Partition(w: Walked, handled: seq<Registration>) {
    && DistinctNames(w.state.pending)
    && (forall r :: r in w.state.pending ==> r in handled && r.name !in w.state.started)
    && (forall r :: r in handled ==> r in w.state.pending || r.name in w.state.started)
    && (forall n :: n in w.state.started <==> StartedName(w.starts, n))
    && OncePerName(w.starts)
    && Justified(w.starts, handled)
  }

  lemma StartedNameSnoc(starts: seq<Start>, s: Start, n: string)
    ensures StartedName(starts + [s], n) <==> StartedName(starts, n) || n == s.provider.name
  {
    if StartedName(starts, n) {
      var i :| 0 <= i < |starts| && starts[i].provider.name == n;
      assert (starts + [s])[i].provider.name == n;
    }
    if n == s.provider.name {
      assert (starts + [s])[|starts|].provider.name == n;
    }
  }

  /** Recording a start of a provider that was neither started nor pending. */
  lemma StartKeepsPartition(w: Walked, handled: seq<Registration>, r: Registration, p: Pass)
    requires Partition(w, handled) && Starts(p, r) && r.name !in w.state.started
    requires forall q :: q in w.state.pending ==> q.name != r.name
    ensures Partition(Walked(w.state.(started := w.state.started + {r.name}), w.starts + [Start(r, p)]), handled + [r])
  {
    var w' := Walked(w.state.(started := w.state.started + {r.name}), w.starts + [Start(r, p)]);
    NothingMissing(p, r.name, r.requiredCRDs);
    forall n
      ensures n in w'.state.started <==> StartedName(w'.starts, n)
    {
      StartedNameSnoc(w.starts, Start(r, p), n);
    }
    assert forall i :: 0 <= i < |w.starts| ==> StartedName(w.starts, w.starts[i].provider.name);
  }

  lemma DeferKeepsPartition(w: Walked, handled: seq<Registration>, r: Registration)
    requires Partition(w, handled) && r.name !in w.state.started
    requires forall q :: q in w.state.pending ==> q.name != r.name
    ensures Partition(w.(state := w.state.(pending := w.state.pending + [r])), handled + [r])
  {
    var pending := w.state.pending;
    assert forall i :: 0 <= i < |pending| ==> pending[i] in pending;
  }

  lemma {:induction false} SetUpPartition(p: Pass, registry: seq<Registration>)
    requires DistinctNames(registry) && SetUp(p, registry).Some?
    ensures Partition(SetUp(p, registry).value, registry)
    decreases |registry|
  {
    if registry != [] {
      var front, r := registry[..|registry| - 1], registry[|registry| - 1];
      SetUpPartition(p, front);
      var w := SetUp(p, front).value;
      assert registry == front + [r];
      NewNameUnstarted(w, front, r);
      if Ready(p, r) {
        StartKeepsPartition(w, front, r, p);
      } else {
        DeferKeepsPartition(w, front, r);
      }
    }
  }

  lemma NewNameUnstarted(w: Walked, handled: seq<Registration>, r: Registration)
    requires Partition(w, handled) && DistinctNames(handled + [r])
    ensures r.name !in w.state.started && forall q :: q in w.state.pending ==> q.name != r.name
  {
    var all := handled + [r];
    forall q | q in handled
      ensures q.name != r.name
    {
      var i :| 0 <= i < |handled| && handled[i] == q;
      assert all[i].name != all[|handled|].name;
    }
    assert forall i :: 0 <= i < |w.starts| ==> w.starts[i].provider in handled;
  }

  /** What a walk adds to the providers started before it. */
  function Own(w: Walked, before: set<string>): Walked {
    Walked(w.state.(started := w.state.started - before), w.starts)
  }

  lemma WalkStart(p: Pass, front: seq<Registration>, r: Registration, before: set<string>)
    requires var w := Walk(p, front, before);
      && before <= w.state.started && Partition(Own(w, before), front)
      && DistinctNames(front + [r]) && r.name !in before && Starts(p, r)
    ensures var w := Walk(p, front, before);
      && r.name !in w.state.started
      && Partition(
           Own(Walked(w.state.(started := w.state.started + {r.name}), w.starts + [Start(r, p)]), before), front + [r])
  {
    var w := Walk(p, front, before);
    NewNameUnstarted(Own(w, before), front, r);
    StartKeepsPartition(Own(w, before), front, r, p);
    assert w.state.started + {r.name} - before == Own(w, before).state.started + {r.name};
  }

  /** A pass over pending providers of which none is started handles each of them. */
  lemma {:induction false} WalkPartition(p: Pass, todo: seq<Registration>, started: set<string>)
    requires DistinctNames(todo) && forall r :: r in todo ==> r.name !in started
    ensures started <= Walk(p, todo, started).state.started
    ensures Partition(Own(Walk(p, todo, started), started), todo)
    decreases |todo|
  {
    if todo != [] {
      var front, r := todo[..|todo| - 1], todo[|todo| - 1];
      WalkPartition(p, front, started);
      assert todo == front + [r];
      if Starts(p, r) {
        WalkStart(p, front, r, started);
      } else {
        NewNameUnstarted(Own(Walk(p, front, started), started), front, r);
        DeferKeepsPartition(Own(Walk(p, front, started), started), front, r);
      }
    }
  }

  /** The starts of a pass follow those before it without repeating a name. */
  lemma PassPartition(before: Walked, registry: seq<Registration>, p: Pass)
    requires Partition(before, registry) && DistinctNames(registry)
    ensures var w := Walk(p, before.state.pending, before.state.started);
      Partition(w.(starts := before.starts + w.starts), registry)
  {
    var w := Walk(p, before.state.pending, before.state.started);
    WalkPartition(p, before.state.pending, before.state.started);
    OncePerNameAppend(before.starts, w.starts, before.state.started);
    forall n
      ensures n in w.state.started <==> StartedName(before.starts + w.starts, n)
    {
      StartedNameAppend(before.starts, w.starts, n);
    }
  }

  lemma OncePerNameAppend(a: seq<Start>, b: seq<Start>, started: set<string>)
    requires OncePerName(a) && OncePerName(b)
    requires forall n :: StartedName(a, n) ==> n in started
    requires forall n :: StartedName(b, n) ==> n !in started
    ensures OncePerName(a + b)
  {
    assert forall i :: 0 <= i < |a| ==> StartedName(a, a[i].provider.name);
    assert forall i :: 0 <= i < |b| ==> StartedName(b, b[i].provider.name);
  }

  lemma StartedNameAppend(a: seq<Start>, b: seq<Start>, n: string)
    ensures StartedName(a + b, n) <==> StartedName(a, n) || StartedName(b, n)
  {
    if StartedName(a, n) {
      var i :| 0 <= i < |a| && a[i].provider.name == n;
      assert (a + b)[i].provider.name == n;
    }
    if StartedName(b, n) {
      var i :| 0 <= i < |b| && b[i].provider.name == n;
      assert (a + b)[|a| + i].provider.name == n;
    }
  }

  /**
   With distinct names, after start-up and any passes: pending and started partition the
   registry, nothing started twice, and every start saw all its kinds served in its pass.
   */
  lemma {:induction false} RunPartition(registry: seq<Registration>, setup: Pass, passes: seq<Pass>)
    requires DistinctNames(registry) && Run(registry, setup, passes).Some?
    ensures Partition(Run(registry, setup, passes).value, registry)
    decreases |passes|
  {
    if passes == [] {
      SetUpPartition(setup, registry);
    } else {
      RunPartition(registry, setup, passes[..|passes| - 1]);
      PassPartition(Run(registry, setup, passes[..|passes| - 1]).value, registry, passes[|passes| - 1]);
    }
  }

  /** Progress: in a pass that serves everything and whose factories succeed, nothing stays pending. */
  lemma {:induction false} ServedPassStartsAll(p: Pass, todo: seq<Registration>, started: set<string>)
    requires forall r :: r in todo ==> AllServed(p, r) && p.factorySucceeds(r.name)
    ensures Walk(p, todo, started).state.pending == []
    decreases |todo|
  {
    if todo != [] {
      ServedPassStartsAll(p, todo[..|todo| - 1], started);
      var r := todo[|todo| - 1];
      assert AllServed(p, r);
      NothingMissing(p, r.name, r.requiredCRDs);
    }
  }

  // ---- Distinct names are exactly what this needs ----

  /** A start-up that sees everything served and whose factories succeed. */
  function Serving(): Pass {
    Pass((provider: string, kind: string) => Served, (provider: string) => true)
  }

  /** Start-up does not look at what is already started: it starts every registration, in order. */
  lemma {:induction false} ServingStartsEach(registry: seq<Registration>)
    ensures SetUp(Serving(), registry).Some?
    ensures var starts := SetUp(Serving(), registry).value.starts;
      |starts| == |registry| && forall i :: 0 <= i < |starts| ==> starts[i].provider == registry[i]
    decreases |registry|
  {
    if registry != [] {
      ServingStartsEach(registry[..|registry| - 1]);
      var r := registry[|registry| - 1];
      NothingMissing(Serving(), r.name, r.requiredCRDs);
    }
  }

  /** Two registrations of one name are both started at start-up. */
  lemma {:induction false} DuplicateNameStartsTwice(registry: seq<Registration>, i: nat, j: nat)
    requires i < j < |registry| && registry[i].name == registry[j].name
    ensures Run(registry, Serving(), []).Some?
    ensures !OncePerName(Run(registry, Serving(), []).value.starts)
  {
    ServingStartsEach(registry);
    var starts := SetUp(Serving(), registry).value.starts;
    assert starts[i].provider.name == starts[j].provider.name;
  }

  ghost predicate AlwaysPartitions(registry: seq<Registration>) {
    forall setup, passes ::
      Run(registry, setup, passes).Some? ==> Partition(Run(registry, setup, passes).value, registry)
  }

  /** Every run partitions the registry, with every start justified and none repeated, exactly when its names differ. */
  lemma DistinctNamesExact(registry: seq<Registration>)
    ensures AlwaysPartitions(registry) <==> DistinctNames(registry)
  {
    if DistinctNames(registry) {
      forall setup, passes | Run(registry, setup, passes).Some?
        ensures Partition(Run(registry, setup, passes).value, registry)
      {
        RunPartition(registry, setup, passes);
      }
    } else {
      var i, j :| 0 <= i < j < |registry| && registry[i].name == registry[j].name;
      DuplicateNameStartsTwice(registry, i, j);
    }
  }

  /** And when both had to wait, the watcher starts one and drops the other, which then never starts. */
  lemma DuplicateNameDropped(first: Registration, second: Registration, setup: Pass, p: Pass)
    requires first != second && first.name == second.name
    requires !Ready(setup, first) && !Ready(setup, second) && Starts(p, first)
    ensures var run := Run([first, second], setup, [p]);
      && run.Some? && second !in run.value.state.pending
      && forall s :: s in run.value.starts ==> s.provider != second
  {
    var registry := [first, second];
    assert registry[..1] == [first] && [first][..0] == [] && [p][..0] == [];
    assert [] + [first] == [first] && [first] + [second] == registry;
    assert SetUp(setup, []) == Some(Walked(State([], {}), []));
    assert SetUp(setup, [first]) == Some(Walked(State([first], {}), []));
    assert SetUp(setup, registry) == Some(Walked(State(registry, {}), []));
    assert Run(registry, setup, []) == SetUp(setup, registry);
    assert Walk(p, [first], {}) == Walked(State([], {first.name}), [Start(first, p)]);
  }
}
