/**
 Whole runs of the operator on one MCPServer name: spec changes, deletion and
 re-creation, operator restarts and reconciles with any reads and any write outcome.
 */
module ReconcileRuns {
  import opened Wrappers
  import opened Conditions
  import opened Availability
  import opened Reconcile
  import opened ReconcileStatus

  /** A dial that reached the endpoint: answered by the server or by its authentication layer. */
  datatype Contact = Contact(uid: nat, generation: int, hash: string, process: nat)

  datatype World = World(state: State, nextUid: nat, process: nat, contacts: set<Contact>)

  datatype Event =
    | Create
    | Delete
    | ChangeSpec
    | Restart
    | Reconcile(input: Input)

  const INITIAL := World(State(None, None, ""), 0, 0, {})

  predicate Contacted(r: Result) {
    r.handshake.Some? && r.handshake.value.action == Dialed && r.handshake.value.verified.status == StatusTrue
  }

  predicate SkipsDial(r: Result) {
    r.handshake.Some? && r.handshake.value.action == Skipped
  }

  /** The reconcile leaves the stored status as it was. */
  predicate Unstored(i: Input, r: Result) {
    r.applied.None? || i.write == Rejected
  }

  function Contacts(w: World, i: Input, r: Result): set<Contact> {
    if Contacted(r) && w.state.server.Some? && i.path.Endpoint?
    then {Contact(w.state.server.value.uid, w.state.server.value.generation, i.path.reached.caHash, w.process)}
    else {}
  }

  function After(w: World, i: Input, r: Result): World {
    w.(state := r.state, contacts := w.contacts + Contacts(w, i, r))
  }

  function Next(w: World, e: Event): World {
    match e
    case Create =>
      if w.state.server.Some? then w
      else w.(state := w.state.(server := Some(Server(w.nextUid, 1, UNPUBLISHED))), nextUid := w.nextUid + 1)
    case Delete => w.(state := w.state.(server := None))
    case ChangeSpec =>
      if w.state.server.None? then w
      else
        var server := w.state.server.value;
        w.(state := w.state.(server := Some(server.(generation := server.generation + 1))))
    case Restart => w.(state := State(w.state.server, None, ""), process := w.process + 1)
    case Reconcile(i) => After(w, i, Step(w.state, i))
  }

  function Exec(es: seq<Event>): World
    decreases |es|
  {
    if es == [] then INITIAL else Next(Exec(es[..|es| - 1]), es[|es| - 1])
  }

  // ---- One reconcile, as far as runs are concerned ----

  /** The shortcut is taken only on a verified status of the current generation with the remembered hash. */
  lemma SkipMeans(s: State, i: Input)
    requires SkipsDial(Step(s, i))
    ensures s.server.Some? && i.path.Endpoint? && AlreadyVerified(s.server.value, s.caHash, i.path.reached.caHash)
    ensures Step(s, i).handshake.value.info == s.server.value.status.serverInfo
  {
  }

  /** A dial is made only where the shortcut is not open. */
  lemma ContactMeans(s: State, i: Input)
    requires Contacted(Step(s, i))
    ensures s.server.Some? && i.path.Endpoint? && !AlreadyVerified(s.server.value, s.caHash, i.path.reached.caHash)
    ensures Step(s, i).applied.Some?
  {
  }

  lemma EndpointUnstored(s: State, i: Input, r: Reached)
    requires s.server.Some? && i.path == Endpoint(r) && i.write == Rejected
    ensures Step(s, i).state.server == s.server && Step(s, i).state.caHash == s.caHash
  {
  }

  lemma EndpointApplies(s: State, i: Input, r: Reached)
    requires s.server.Some? && i.path == Endpoint(r)
    ensures Step(s, i).applied.Some?
  {
  }

  lemma EarlyExitUnstored(s: State, i: Input)
    requires s.server.Some? && !i.path.Endpoint? && Unstored(i, Step(s, i))
    ensures Step(s, i).state.server == s.server && Step(s, i).state.caHash == s.caHash
  {
  }

  /** A reconcile that stores no status keeps the object and the remembered hash. */
  lemma NothingStored(s: State, i: Input)
    requires s.server.Some? && Unstored(i, Step(s, i))
    ensures Step(s, i).state.server == s.server && Step(s, i).state.caHash == s.caHash
  {
    if i.path.Endpoint? {
      EndpointApplies(s, i, i.path.reached);
      EndpointUnstored(s, i, i.path.reached);
    } else {
      EarlyExitUnstored(s, i);
    }
  }

  lemma StoredStatus(s: State, i: Input)
    requires s.server.Some? && !Unstored(i, Step(s, i))
    ensures Step(s, i).state.server == Some(s.server.value.(status := Step(s, i).applied.value))
    ensures Step(s, i).applied.value.observedGeneration == s.server.value.generation
  {
  }

  /** The handshake reported is the one the status was made from. */
  lemma EndpointHandshake(s: State, i: Input, r: Reached)
    requires s.server.Some? && i.path == Endpoint(r)
    ensures Step(s, i).handshake.Some?
    ensures var h := Step(s, i).handshake.value;
      && (HoldsTrue(Step(s, i).applied.value.conditions, Verified) <==> h.verified.status == StatusTrue)
      && Step(s, i).applied.value.serverInfo == h.info
  {
    var e := ReconcileEndpoint(s.server.value, s.retry, s.caHash, r, i.policy, i.now);
    assert Find(Step(s, i).applied.value.conditions, Verified) == Some(e.book.verified) by { EndpointStatus(s, i, r); }
    assert Step(s, i).handshake == Some(e.handshake) && Step(s, i).applied == Some(e.status);
  }

  lemma HandshakeKinds(s: State, i: Input, r: Reached)
    requires s.server.Some? && i.path == Endpoint(r)
    ensures var h := Step(s, i).handshake.value;
      h.verified.status == StatusTrue <==> Contacted(Step(s, i)) || SkipsDial(Step(s, i))
  {
  }

  /** What an applied verified status leaves behind. */
  lemma VerifiedStep(s: State, i: Input, r: Reached)
    requires s.server.Some? && i.path == Endpoint(r)
    requires HoldsTrue(Step(s, i).applied.value.conditions, Verified)
    ensures Contacted(Step(s, i)) || SkipsDial(Step(s, i))
    ensures Step(s, i).applied.value.serverInfo == Step(s, i).handshake.value.info
    ensures Step(s, i).state.caHash == if i.write == Committed then r.caHash else s.caHash
  {
    EndpointHandshake(s, i, r);
    HandshakeKinds(s, i, r);
  }

  /** A status that is not verified comes from a handshake that neither succeeded nor was skipped. */
  lemma UnverifiedStep(s: State, i: Input)
    requires s.server.Some? && Step(s, i).applied.Some?
    requires !HoldsTrue(Step(s, i).applied.value.conditions, Verified)
    ensures !Contacted(Step(s, i)) && !SkipsDial(Step(s, i))
  {
    if i.path.Endpoint? {
      EndpointHandshake(s, i, i.path.reached);
      HandshakeKinds(s, i, i.path.reached);
    }
  }

  /** The facts above about one reconcile of an existing server, without the step itself. */
  ghost predicate Lawful(s: State, i: Input, r: Result) {
    && s.server.Some?
    && (Contacted(r) || SkipsDial(r) ==> i.path.Endpoint? && r.applied.Some?)
    && (Contacted(r) ==> !AlreadyVerified(s.server.value, s.caHash, i.path.reached.caHash))
    && (SkipsDial(r) ==>
          && AlreadyVerified(s.server.value, s.caHash, i.path.reached.caHash)
          && r.handshake.value.info == s.server.value.status.serverInfo)
    && (Unstored(i, r) ==> r.state.server == s.server && r.state.caHash == s.caHash)
    && (!Unstored(i, r) ==> StoresLawfully(s, i, r))
  }

  ghost predicate StoresLawfully(s: State, i: Input, r: Result)
    requires s.server.Some? && r.applied.Some?
  {
    var p := r.applied.value;
    && r.state.server == Some(s.server.value.(status := p))
    && p.observedGeneration == s.server.value.generation
    && UniqueTypes(p.conditions) && AddressWhenVerified(p)
    && (HoldsTrue(p.conditions, Verified) <==> Contacted(r) || SkipsDial(r))
    && (HoldsTrue(p.conditions, Verified) ==>
          && i.path.Endpoint? && p.serverInfo == r.handshake.value.info
          && r.state.caHash == if i.write == Committed then i.path.reached.caHash else s.caHash)
  }

  lemma StoredLawful(s: State, i: Input)
    requires s.server.Some? && !Unstored(i, Step(s, i))
    ensures StoresLawfully(s, i, Step(s, i))
  {
    AppliedStatusSound(s, i);
    StoredStatus(s, i);
    if HoldsTrue(Step(s, i).applied.value.conditions, Verified) {
      VerifiedMeansServing(s, i);
      VerifiedStep(s, i, i.path.reached);
    } else {
      UnverifiedStep(s, i);
    }
  }

  lemma StepLawful(s: State, i: Input)
    requires s.server.Some?
    ensures Lawful(s, i, Step(s, i))
  {
    if Contacted(Step(s, i)) {
      ContactMeans(s, i);
    }
    if SkipsDial(Step(s, i)) {
      SkipMeans(s, i);
      SkipApplies(s, i);
    }
    if Unstored(i, Step(s, i)) {
      NothingStored(s, i);
    } else {
      StoredLawful(s, i);
    }
  }

  lemma SkipApplies(s: State, i: Input)
    requires SkipsDial(Step(s, i))
    ensures Step(s, i).applied.Some?
  {
  }

  // ---- Every verification rests on a dial ----

  /** Some dial at this generation of this object got through. */
  ghost predicate ReachedAt(w: World, uid: nat, generation: int) {
    exists c :: c in w.contacts && c.uid == uid && c.generation == generation
  }

  predicate VerifiedNow(s: State) {
    s.server.Some? && HoldsTrue(s.server.value.status.conditions, Verified)
  }

  /** The stored status is sound, and its verification is backed by a dial at the generation it observed. */
  ghost predicate Backed(w: World) {
    && (w.state.server.Some? ==>
          var server := w.state.server.value;
          && UniqueTypes(server.status.conditions) && AddressWhenVerified(server.status)
          && server.status.observedGeneration <= server.generation)
    && (VerifiedNow(w.state) ==>
          ReachedAt(w, w.state.server.value.uid, w.state.server.value.status.observedGeneration))
  }

  lemma ContactsGrow(w: World, w': World, uid: nat, generation: int)
    requires ReachedAt(w, uid, generation) && w.contacts <= w'.contacts
    ensures ReachedAt(w', uid, generation)
  {
    var c :| c in w.contacts && c.uid == uid && c.generation == generation;
    assert c in w'.contacts;
  }

  lemma ReconcileBacked(w: World, i: Input, r: Result)
    requires Backed(w) && Lawful(w.state, i, r)
    ensures Backed(After(w, i, r))
  {
    var server := w.state.server.value;
    var w' := After(w, i, r);
    if VerifiedNow(w.state) {
      ContactsGrow(w, w', server.uid, server.status.observedGeneration);
    }
    if Contacted(r) {
      assert Contact(server.uid, server.generation, i.path.reached.caHash, w.process) in w'.contacts;
    }
  }

  lemma NextBacked(w: World, e: Event)
    requires Backed(w)
    ensures Backed(Next(w, e))
  {
    if e.Reconcile? && w.state.server.Some? {
      StepLawful(w.state, e.input);
      ReconcileBacked(w, e.input, Step(w.state, e.input));
    } else if (e.ChangeSpec? || e.Restart? || e.Create?) && VerifiedNow(w.state) {
      ContactsGrow(w, Next(w, e), w.state.server.value.uid, w.state.server.value.status.observedGeneration);
    }
  }

  lemma {:induction false} AllBacked(es: seq<Event>)
    ensures Backed(Exec(es))
    decreases |es|
  {
    if es != [] {
      AllBacked(es[..|es| - 1]);
      NextBacked(Exec(es[..|es| - 1]), es[|es| - 1]);
    }
  }

  /** In every reachable state the stored status has one condition per type, and an address exactly when verified. */
  lemma StoredStatusSound(es: seq<Event>)
    ensures var server := Exec(es).state.server;
      server.Some? ==> UniqueTypes(server.value.status.conditions) && AddressWhenVerified(server.value.status)
  {
    AllBacked(es);
  }

  // ---- ... and, with a CA bundle, on a dial of this process with that bundle ----

  /**
   The write that can do harm: it stores a verification but is answered with an error, so the
   hash of the bundle just used is not remembered, and another one is.
   */
  predicate Harmful(w: World, e: Event) {
    && e.Reconcile? && e.input.write == HalfCommitted && Contacted(Step(w.state, e.input))
    && w.state.caHash != "" && e.input.path.Endpoint? && e.input.path.reached.caHash != w.state.caHash
  }

  predicate Harmless(es: seq<Event>) {
    forall n :: 0 <= n < |es| ==> !Harmful(Exec(es[..n]), es[n])
  }

  /** The remembered hash is one this process has dialled the observed generation with. */
  predicate HashBacked(w: World) {
    VerifiedNow(w.state) && w.state.caHash != "" ==>
      var server := w.state.server.value;
      Contact(server.uid, server.status.observedGeneration, w.state.caHash, w.process) in w.contacts
  }

  lemma ReconcileHashBacked(w: World, i: Input, r: Result)
    requires HashBacked(w) && Lawful(w.state, i, r)
    requires i.write == HalfCommitted && Contacted(r) ==>
      w.state.caHash == "" || i.path.reached.caHash == w.state.caHash
    ensures HashBacked(After(w, i, r))
  {
    var server := w.state.server.value;
    if Contacted(r) {
      assert Contact(server.uid, server.generation, i.path.reached.caHash, w.process) in After(w, i, r).contacts;
    }
  }

  lemma NextHashBacked(w: World, e: Event)
    requires HashBacked(w) && !Harmful(w, e)
    ensures HashBacked(Next(w, e))
  {
    if e.Reconcile? && w.state.server.Some? {
      StepLawful(w.state, e.input);
      ReconcileHashBacked(w, e.input, Step(w.state, e.input));
    }
  }

  lemma {:induction false} HarmlessHashBacked(es: seq<Event>)
    requires Harmless(es)
    ensures HashBacked(Exec(es))
    decreases |es|
  {
    if es != [] {
      var front, last := es[..|es| - 1], es[|es| - 1];
      assert !Harmful(Exec(front), last);
      assert Harmless(front) by {
        forall n | 0 <= n < |front| ensures !Harmful(Exec(front[..n]), front[n]) {
          assert front[..n] == es[..n] && front[n] == es[n];
        }
      }
      HarmlessHashBacked(front);
      NextHashBacked(Exec(front), last);
    }
  }

  predicate Skips(w: World, i: Input) {
    SkipsDial(Step(w.state, i))
  }

  /**
   After every run, a reconcile that keeps Verified without dialling relies on a dial that got
   through at this generation of this very object. With a CA bundle in force it relies on one
   made by this process with that bundle, in every run without a harmful write.
   */
  lemma SkipJustified(es: seq<Event>, i: Input)
    requires Skips(Exec(es), i)
    ensures var w := Exec(es);
      var server := w.state.server.value;
      && i.path.Endpoint? && w.state.server.Some?
      && ReachedAt(w, server.uid, server.generation)
      && (Harmless(es) && i.path.reached.caHash != "" ==>
            Contact(server.uid, server.generation, i.path.reached.caHash, w.process) in w.contacts)
  {
    AllBacked(es);
    SkipMeans(Exec(es).state, i);
    if Harmless(es) {
      HarmlessHashBacked(es);
    }
  }

  predicate Acknowledged(e: Event) {
    e.Reconcile? ==> e.input.write != HalfCommitted
  }

  /**
   In every run of acknowledged or failed writes, skipping the dial with a CA bundle in force
   rests on a dial of this process, at the current generation of this object, with that bundle.
   */
  lemma AcknowledgedSkipJustified(es: seq<Event>, i: Input)
    requires forall k :: 0 <= k < |es| ==> Acknowledged(es[k])
    requires Skips(Exec(es), i) && i.path.Endpoint? && i.path.reached.caHash != ""
    ensures var w := Exec(es);
      var server := w.state.server;
      && server.Some?
      && Contact(server.value.uid, server.value.generation, i.path.reached.caHash, w.process) in w.contacts
  {
    AcknowledgedHarmless(es);
    SkipJustified(es, i);
  }

  lemma AcknowledgedHarmless(es: seq<Event>)
    requires forall k :: 0 <= k < |es| ==> Acknowledged(es[k])
    ensures Harmless(es)
  {
    forall n | 0 <= n < |es| ensures !Harmful(Exec(es[..n]), es[n]) {
      assert Acknowledged(es[n]);
    }
  }

  // ---- After exactly which runs a skip without such a dial is open ----

  /** The dial is skipped for a bundle this process has not dialled this generation with. */
  ghost predicate UnjustifiedSkip(w: World, i: Input) {
    var server := w.state.server;
    && Skips(w, i) && server.Some? && i.path.Endpoint? && i.path.reached.caHash != ""
    && Contact(server.value.uid, server.value.generation, i.path.reached.caHash, w.process) !in w.contacts
  }

  /** Some reconcile could skip so next. */
  ghost predicate SkipOpen(w: World) {
    exists i :: UnjustifiedSkip(w, i)
  }

  /** The remembered hash is one this process has not dialled the current generation with. */
  predicate UndialledHash(w: World) {
    && w.state.server.Some? && w.state.caHash != ""
    && var server := w.state.server.value;
       Contact(server.uid, server.generation, w.state.caHash, w.process) !in w.contacts
  }

  /** The stored verification is current and complete, so the shortcut is open for the remembered hash. */
  predicate ShortcutOpen(s: State) {
    s.server.Some? && AlreadyVerified(s.server.value, s.caHash, s.caHash)
  }

  predicate Exposed(w: World) {
    ShortcutOpen(w.state) && UndialledHash(w)
  }

  lemma OpenIsExposed(w: World)
    ensures SkipOpen(w) <==> Exposed(w)
  {
    if i :| UnjustifiedSkip(w, i) {
      SkipMeans(w.state, i);
    }
    if Exposed(w) {
      ServingSkips(w, w.state.caHash);
      assert UnjustifiedSkip(w, Serving(w.state.caHash, Committed));
    }
  }

  /** The write that opens such a skip: harmful, with server info, the remembered hash undialled at this generation. */
  predicate Opens(w: World, e: Event) {
    Harmful(w, e) && UndialledHash(w) && Step(w.state, e.input).handshake.value.info.Some?
  }

  /** Events that leave the stored verification and the remembered hash in place. */
  predicate LeavesStatus(w: World, e: Event) {
    || e.Create?
    || (e.Reconcile? && var r := Step(w.state, e.input); Unstored(e.input, r) || SkipsDial(r))
  }

  /** The same two conditions on a reconcile, without the step itself. */
  predicate ReconcileOpens(w: World, i: Input, r: Result) {
    && i.write == HalfCommitted && Contacted(r)
    && i.path.Endpoint? && i.path.reached.caHash != w.state.caHash
    && UndialledHash(w) && r.handshake.value.info.Some?
  }

  lemma UnstoredExposed(w: World, i: Input, r: Result)
    requires Lawful(w.state, i, r) && Unstored(i, r)
    ensures Exposed(After(w, i, r)) <==> Exposed(w)
  {
  }

  lemma StoredExposed(w: World, i: Input, r: Result)
    requires Lawful(w.state, i, r) && !Unstored(i, r)
    ensures Exposed(After(w, i, r)) <==> ReconcileOpens(w, i, r) || (Exposed(w) && SkipsDial(r))
  {
    var server := w.state.server.value;
    if Contacted(r) {
      assert Contact(server.uid, server.generation, i.path.reached.caHash, w.process) in After(w, i, r).contacts;
    }
  }

  lemma ReconcileExposed(w: World, i: Input)
    requires w.state.server.Some?
    ensures var r := Step(w.state, i);
      Exposed(After(w, i, r)) <==>
        ReconcileOpens(w, i, r) || (Exposed(w) && (Unstored(i, r) || SkipsDial(r)))
  {
    StepLawful(w.state, i);
    if Unstored(i, Step(w.state, i)) {
      UnstoredExposed(w, i, Step(w.state, i));
    } else {
      StoredExposed(w, i, Step(w.state, i));
    }
  }

  /** One event, in any reachable state: a skip is open after it exactly when it opens one or leaves one open. */
  lemma NextOpen(w: World, e: Event)
    requires Backed(w)
    ensures SkipOpen(Next(w, e)) <==> Opens(w, e) || (SkipOpen(w) && LeavesStatus(w, e))
  {
    OpenIsExposed(w);
    OpenIsExposed(Next(w, e));
    if e.Reconcile? && w.state.server.Some? {
      ReconcileExposed(w, e.input);
    }
  }

  /** The n-th event opened a skip and every later one left it open. */
  ghost predicate OpenedAt(es: seq<Event>, n: nat)
    requires n < |es|
  {
    Opens(Exec(es[..n]), es[n]) && LeftOpen(es, n + 1)
  }

  ghost predicate LeftOpen(es: seq<Event>, from: nat) {
    forall m :: from <= m < |es| ==> LeavesStatus(Exec(es[..m]), es[m])
  }

  ghost predicate Opened(es: seq<Event>) {
    exists n :: 0 <= n < |es| && OpenedAt(es, n)
  }

  lemma LeftOpenSnoc(es: seq<Event>, from: nat)
    requires es != [] && from < |es|
    ensures var front, last := es[..|es| - 1], es[|es| - 1];
      LeftOpen(es, from) <==> LeftOpen(front, from) && LeavesStatus(Exec(front), last)
  {
    var front := es[..|es| - 1];
    assert forall m :: 0 <= m < |front| ==> front[..m] == es[..m] && front[m] == es[m];
    if LeftOpen(front, from) && LeavesStatus(Exec(front), es[|es| - 1]) {
      forall m | from <= m < |es| ensures LeavesStatus(Exec(es[..m]), es[m]) {
        if m < |front| {
          assert LeavesStatus(Exec(front[..m]), front[m]);
        }
      }
    }
    if LeftOpen(es, from) {
      forall m | from <= m < |front| ensures LeavesStatus(Exec(front[..m]), front[m]) {
        assert LeavesStatus(Exec(es[..m]), es[m]);
      }
    }
  }

  lemma OpenedAtSnoc(es: seq<Event>, n: nat)
    requires n < |es| - 1
    ensures var front, last := es[..|es| - 1], es[|es| - 1];
      OpenedAt(es, n) <==> OpenedAt(front, n) && LeavesStatus(Exec(front), last)
  {
    var front := es[..|es| - 1];
    assert front[..n] == es[..n] && front[n] == es[n];
    LeftOpenSnoc(es, n + 1);
  }

  lemma OpenedLast(es: seq<Event>)
    requires es != []
    ensures OpenedAt(es, |es| - 1) <==> Opens(Exec(es[..|es| - 1]), es[|es| - 1])
  {
  }

  lemma OpenedStays(es: seq<Event>)
    requires es != [] && Opened(es[..|es| - 1]) && LeavesStatus(Exec(es[..|es| - 1]), es[|es| - 1])
    ensures Opened(es)
  {
    var front := es[..|es| - 1];
    var n :| 0 <= n < |front| && OpenedAt(front, n);
    OpenedAtSnoc(es, n);
    assert OpenedAt(es, n);
  }

  lemma OpenedBefore(es: seq<Event>, n: nat)
    requires n < |es| - 1 && OpenedAt(es, n)
    ensures Opened(es[..|es| - 1]) && LeavesStatus(Exec(es[..|es| - 1]), es[|es| - 1])
  {
    OpenedAtSnoc(es, n);
    assert OpenedAt(es[..|es| - 1], n);
  }

  lemma OpenedSnoc(es: seq<Event>)
    requires es != []
    ensures var front, last := es[..|es| - 1], es[|es| - 1];
      Opened(es) <==> OpenedAt(es, |es| - 1) || (Opened(front) && LeavesStatus(Exec(front), last))
  {
    if Opened(es) {
      var n :| 0 <= n < |es| && OpenedAt(es, n);
      if n < |es| - 1 {
        OpenedBefore(es, n);
      }
    }
    if Opened(es[..|es| - 1]) && LeavesStatus(Exec(es[..|es| - 1]), es[|es| - 1]) {
      OpenedStays(es);
    }
  }

  /**
   For every run: a skip without its dial can come next if and only if some harmful write of
   the run, made with server info on a generation this process had not dialled with the
   remembered hash, was followed only by events that leave the stored status in place.
   */
  lemma {:induction false} UnjustifiedSkipExact(es: seq<Event>)
    ensures SkipOpen(Exec(es)) <==> Opened(es)
    decreases |es|
  {
    OpenIsExposed(Exec(es));
    if es != [] {
      var front, last := es[..|es| - 1], es[|es| - 1];
      UnjustifiedSkipExact(front);
      AllBacked(front);
      NextOpen(Exec(front), last);
      OpenedLast(es);
      OpenedSnoc(es);
    }
  }

  // ---- A stored but unacknowledged write ----

  function Serving(hash: string, write: Write): Input {
    Input(0,
          Endpoint(Reached(DaemonSet(1, 1, 1, 1), "", "http://s", hash, TLSReady, Success(Some(Info(""))), NoGateway,
            None)),
          Report(StatusFalse, Invalid, ""), write)
  }

  /** Verified with bundle "a"; re-verified after a spec change with bundle "b", stored but not acknowledged. */
  function UnacknowledgedRun(): seq<Event> {
    [] + [Create] + [Reconcile(Serving("a", Committed))] + [ChangeSpec] + [Reconcile(Serving("b", HalfCommitted))]
  }

  lemma ExecSnoc(es: seq<Event>, e: Event)
    ensures Exec(es + [e]) == Next(Exec(es), e)
  {
    assert (es + [e])[..|es|] == es;
  }

  function VerifiedStatus(generation: int): Published {
    Published(generation,
              [Condition(Accepted, StatusTrue, Valid, ACCEPTED.message, generation, 0),
               Condition(Available, StatusTrue, WorkloadAvailable, "", generation, 0),
               Condition(Verified, StatusTrue, HandshakeVerified, SUCCEEDED.message, generation, 0),
               Condition(PolicyEnforced, StatusFalse, Invalid, "", generation, 0)],
              Some("http://s"), Some(Info("")), None)
  }

  predicate FreshOrVerified(server: Server) {
    server.status.conditions == [] || server.status.conditions == VerifiedStatus(server.generation - 1).conditions
  }

  /** Nothing in these stored lists changes a transition time at instant 0. */
  lemma StampedAtZero(server: Server, t: ConditionType, r: Report)
    requires FreshOrVerified(server)
    ensures Stamp(t, r, server, 0) == Condition(t, r.status, r.reason, r.message, server.generation, 0)
  {
    FindMember(server.status.conditions, t);
  }

  function VerifiedAt(generation: int): Condition {
    Condition(Verified, StatusTrue, HandshakeVerified, SUCCEEDED.message, generation, 0)
  }

  lemma ServingEndpoint(server: Server, retry: Option<Retry>, previousHash: string, hash: string, write: Write)
    requires FreshOrVerified(server) && previousHash != hash
    ensures var i := Serving(hash, write);
      var e := ReconcileEndpoint(server, retry, previousHash, i.path.reached, i.policy, 0);
      && e.status == VerifiedStatus(server.generation)
      && e.handshake == Handshake(VerifiedAt(server.generation), Some(Info("")), Dialed)
      && e.book == Bookkeeping(None, VerifiedAt(server.generation), 0, NO_EVENTS)
  {
    var i := Serving(hash, write);
    StampedAtZero(server, Accepted, ACCEPTED);
    StampedAtZero(server, Available, Report(StatusTrue, WorkloadAvailable, ""));
    StampedAtZero(server, Verified, SUCCEEDED);
    StampedAtZero(server, PolicyEnforced, i.policy);
    var e := ReconcileEndpoint(server, retry, previousHash, i.path.reached, i.policy, 0);
    assert e.status.conditions == VerifiedStatus(server.generation).conditions;
  }

  lemma ServingNext(w: World, hash: string, write: Write) returns (w': World)
    requires w.state.server.Some? && w.state.caHash != hash && hash != "" && write != Rejected
    requires FreshOrVerified(w.state.server.value)
    ensures w' == Next(w, Reconcile(Serving(hash, write)))
    ensures var server := w.state.server.value;
      && w'.state.server == Some(server.(status := VerifiedStatus(server.generation)))
      && w'.state.caHash == (if write == Committed then hash else w.state.caHash)
      && w'.contacts == w.contacts + {Contact(server.uid, server.generation, hash, w.process)}
      && w'.process == w.process
  {
    w' := Next(w, Reconcile(Serving(hash, write)));
    ServingEndpoint(w.state.server.value, w.state.retry, w.state.caHash, hash, write);
  }

  lemma ServingSkips(w: World, hash: string)
    requires w.state.server.Some? && AlreadyVerified(w.state.server.value, w.state.caHash, hash)
    ensures Skips(w, Serving(hash, Committed))
  {
  }

  /** Restoring bundle "a" then skips the dial, although generation 2 was never dialled with it. */
  lemma UnacknowledgedWriteSkips()
    ensures var w := Exec(UnacknowledgedRun());
      && w.state.server.Some? && w.state.server.value.generation == 2
      && UnjustifiedSkip(w, Serving("a", Committed))
  {
    UnacknowledgedExec();
    var w := RotationForgets();
    FindUnique(VerifiedStatus(2).conditions, 2);
    ServingSkips(w, "a");
  }

  lemma RotationForgets() returns (w: World)
    ensures w == Next(Next(Next(Next(INITIAL, Create), Reconcile(Serving("a", Committed))), ChangeSpec),
                      Reconcile(Serving("b", HalfCommitted)))
    ensures w.process == 0 && Contact(0, 2, "a", 0) !in w.contacts
    ensures w.state.server == Some(Server(0, 2, VerifiedStatus(2))) && w.state.caHash == "a"
  {
    var w2 := ServingNext(Next(INITIAL, Create), "a", Committed);
    w := ServingNext(Next(w2, ChangeSpec), "b", HalfCommitted);
  }

  lemma UnacknowledgedExec()
    ensures Exec(UnacknowledgedRun())
      == Next(Next(Next(Next(INITIAL, Create), Reconcile(Serving("a", Committed))), ChangeSpec),
              Reconcile(Serving("b", HalfCommitted)))
  {
    var verify, rotate := Reconcile(Serving("a", Committed)), Reconcile(Serving("b", HalfCommitted));
    ExecSnoc([], Create);
    ExecSnoc([] + [Create], verify);
    ExecSnoc([] + [Create] + [verify], ChangeSpec);
    ExecSnoc([] + [Create] + [verify] + [ChangeSpec], rotate);
  }
}
