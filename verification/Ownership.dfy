/**
 Ownership as a protocol: the operator reads an object, decides on its copy and writes
 back under resourceVersion checking, while any other writer may act in between.
 */
module Ownership {
  import opened Wrappers

  // ---- Objects and owner references ----

  datatype OwnerRef = OwnerRef(apiVersion: string, kind: string, name: string, uid: nat, controller: bool)

  datatype ResourceKind = Deployment | Service | NetworkPolicy | GatewayBinding

  datatype Key = Key(kind: ResourceKind, namespace: string, name: string)

  datatype Object = Object(key: Key, uid: nat, resourceVersion: nat, owners: seq<OwnerRef>, content: string)

  /** An MCPServer acting as owner. */
  datatype Server = Server(namespace: string, name: string, uid: nat)

  const GROUP := "mcp.x-k8s.io"
  const VERSION := "v1beta1"
  const KIND := "MCPServer"

  function Slashes(s: string): nat {
    if s == [] then 0 else Slashes(s[1..]) + if s[0] == '/' then 1 else 0
  }

  function BeforeSlash(s: string): string {
    if s == [] || s[0] == '/' then [] else [s[0]] + BeforeSlash(s[1..])
  }

  /** schema.ParseGroupVersion, keeping the group; more than one slash is an error. */
  function Group(apiVersion: string): Option<string> {
    if Slashes(apiVersion) == 0 then Some("")
    else if Slashes(apiVersion) == 1 then Some(BeforeSlash(apiVersion))
    else None
  }

  /** metav1.GetControllerOf: the first reference marked as controller. */
  function ControllerOf(owners: seq<OwnerRef>): (r: Option<OwnerRef>)
    ensures r.Some? ==> r.value.controller && r.value in owners
  {
    if owners == [] then None
    else if owners[0].controller then Some(owners[0])
    else ControllerOf(owners[1..])
  }

  predicate IsSameGroupKind(ref: OwnerRef) {
    ref.kind == KIND && Group(ref.apiVersion) == Some(GROUP)
  }

  /** The owner is an MCPServer of the same group, name and namespace, in whatever API version. */
  predicate ServerOfSameName(ref: OwnerRef, o: Object, me: Server) {
    IsSameGroupKind(ref) && ref.name == me.name && o.key.namespace == me.namespace
  }

  /** validateOwnership: controlled by this very server, or by an earlier one of the same name. */
  predicate ValidOwnership(o: Object, me: Server) {
    var owner := ControllerOf(o.owners);
    owner.Some? && (owner.value.uid == me.uid || ServerOfSameName(owner.value, o, me))
  }

  /** The reference the operator writes. */
  function RefTo(me: Server): OwnerRef {
    OwnerRef(GROUP + ("/" + VERSION), KIND, me.name, me.uid, true)
  }

  /** Two references name the same object whatever their version and UID. */
  predicate SameObject(a: OwnerRef, b: OwnerRef) {
    Group(a.apiVersion).Some? && Group(a.apiVersion) == Group(b.apiVersion) && a.kind == b.kind && a.name == b.name
  }

  function Upsert(owners: seq<OwnerRef>, ref: OwnerRef): seq<OwnerRef> {
    if owners == [] then [ref]
    else if SameObject(owners[0], ref) then [ref] + owners[1..]
    else [owners[0]] + Upsert(owners[1..], ref)
  }

  /** controllerutil.SetControllerReference: refuses an object controlled by something else. */
  function SetController(owners: seq<OwnerRef>, me: Server): Option<seq<OwnerRef>> {
    var existing := ControllerOf(owners);
    if existing.Some? && !SameObject(existing.value, RefTo(me)) then None else Some(Upsert(owners, RefTo(me)))
  }

  /** After the reference is set this server is the controller, and other owners keep theirs. */
  lemma {:induction false} SetControllerAdopts(owners: seq<OwnerRef>, me: Server)
    requires ControllerOf(owners).Some? ==> SameObject(ControllerOf(owners).value, RefTo(me))
    ensures ControllerOf(Upsert(owners, RefTo(me))) == Some(RefTo(me))
  {
    if owners != [] && !SameObject(owners[0], RefTo(me)) {
      SetControllerAdopts(owners[1..], me);
      assert Upsert(owners, RefTo(me))[1..] == Upsert(owners[1..], RefTo(me));
    }
  }

  lemma {:induction false} OtherOwnersKept(owners: seq<OwnerRef>, me: Server, o: OwnerRef)
    requires !SameObject(o, RefTo(me))
    ensures o in Upsert(owners, RefTo(me)) <==> o in owners
  {
    if owners == [] {
      SelfSame(me);
    } else if SameObject(owners[0], RefTo(me)) {
      SelfSame(me);
      assert owners == [owners[0]] + owners[1..];
    } else {
      OtherOwnersKept(owners[1..], me, o);
      assert owners == [owners[0]] + owners[1..];
    }
  }

  lemma SlashesAppend(a: string, b: string)
    ensures Slashes(a + b) == Slashes(a) + Slashes(b)
  {
    if a == [] {
      assert a + b == b;
    } else {
      SlashesAppend(a[1..], b);
      assert (a + b)[1..] == a[1..] + b;
    }
  }

  lemma GroupPrefix(a: string, b: string)
    requires Slashes(a) == 0
    ensures BeforeSlash(a + ("/" + b)) == a
  {
    if a != [] {
      GroupPrefix(a[1..], b);
      assert (a + ("/" + b))[1..] == a[1..] + ("/" + b);
    } else {
      assert a + ("/" + b) == "/" + b;
    }
  }

  lemma SlashFree(s: string)
    requires forall i :: 0 <= i < |s| ==> s[i] != '/'
    ensures Slashes(s) == 0
  {
    if s != [] {
      SlashFree(s[1..]);
    }
  }

  /** The operator's own reference belongs to the API group it checks for. */
  lemma OwnGroup(me: Server)
    ensures Group(RefTo(me).apiVersion) == Some(GROUP)
  {
    NamesSlashFree();
    GroupOf(GROUP, VERSION);
  }

  lemma NamesSlashFree()
    ensures Slashes(GROUP) == 0 && Slashes(VERSION) == 0
  {
    GroupSlashFree();
    VersionSlashFree();
  }

  lemma GroupSlashFree()
    ensures Slashes(GROUP) == 0
  {
    var g := GROUP;
    assert |g| == 12;
    assert g[0] == 'm' && g[1] == 'c' && g[2] == 'p' && g[3] == '.' && g[4] == 'x' && g[5] == '-';
    assert g[6] == 'k' && g[7] == '8' && g[8] == 's' && g[9] == '.' && g[10] == 'i' && g[11] == 'o';
    SlashFree(g);
  }

  lemma VersionSlashFree()
    ensures Slashes(VERSION) == 0
  {
    var v := VERSION;
    assert v == ['v', '1', 'b', 'e', 't', 'a', '1'];
    SlashFree(v);
  }

  lemma GroupOf(group: string, version: string)
    requires Slashes(group) == 0 && Slashes(version) == 0
    ensures Group(group + ("/" + version)) == Some(group)
  {
    SlashesAppend(group, "/" + version);
    assert ("/" + version)[1..] == version;
    GroupPrefix(group, version);
  }

  lemma SelfSame(me: Server)
    ensures SameObject(RefTo(me), RefTo(me))
  {
    OwnGroup(me);
  }

  // ---- The API server ----

  /** versions holds every version ever stored: a read, cached or live, returns one of them. */
  datatype World = World(store: map<Key, Object>, versions: set<Object>, nextVersion: nat, nextUid: nat)

  const EMPTY := World(map[], {}, 0, 0)

  datatype Event =
    | OtherCreate(newKey: Key, owners: seq<OwnerRef>, content: string)
    | OtherUpdate(at: Key, newOwners: seq<OwnerRef>, newContent: string)
    | OtherDelete(gone: Key)
    | Manage(me: Server, kind: ResourceKind, objectName: string, copy: Option<Object>, wanted: string)
    | CleanUp(self: Server, serviceRef: string, managed: Object, external: Option<Object>)

  function Put(w: World, o: Object): World {
    var o' := o.(resourceVersion := w.nextVersion);
    w.(store := w.store[o.key := o'], versions := w.versions + {o'}, nextVersion := w.nextVersion + 1)
  }

  function Add(w: World, k: Key, owners: seq<OwnerRef>, content: string): World {
    if k in w.store then w else Put(w.(nextUid := w.nextUid + 1), Object(k, w.nextUid, 0, owners, content))
  }

  predicate Current(w: World, o: Object) {
    o.key in w.store && w.store[o.key].uid == o.uid && w.store[o.key].resourceVersion == o.resourceVersion
  }

  /** Update with the copy's resourceVersion; a stale copy is a conflict. */
  function Update(w: World, o: Object): World {
    if Current(w, o) then Put(w, o) else w
  }

  /** Delete with UID and resourceVersion preconditions. */
  function DeleteExact(w: World, o: Object): World {
    if Current(w, o) then w.(store := w.store - {o.key}) else w
  }

  /** What the operator would write back over its copy; None when it writes nothing. */
  function Desired(me: Server, o: Object, wanted: string): Option<Object> {
    if !ValidOwnership(o, me) then None
    else if o.key.kind == GatewayBinding then
      if o.content == wanted then None else Some(o.(content := wanted))
    else
      var owners := SetController(o.owners, me);
      if owners.None? then None
      else
        var adopted := ControllerOf(o.owners).value.uid != me.uid;
        if o.content == wanted && !adopted then None else Some(o.(owners := owners.value, content := wanted))
  }

  function Managed(w: World, me: Server, k: Key, copy: Option<Object>, wanted: string): World {
    if copy.None? then Add(w, k, [RefTo(me)], wanted)
    else
      var o := Desired(me, copy.value, wanted);
      if o.None? then w else Update(w, o.value)
  }

  /** A read of this key returned this copy at some time. */
  predicate ReadAt(w: World, k: Key, copy: Option<Object>) {
    copy.Some? ==> copy.value in w.versions && copy.value.key == k
  }

  /** cleanupManagedServiceForBYO, given the copies its reads returned. */
  function CleanedUp(w: World, me: Server, serviceRef: string, managed: Object, external: Option<Object>): World {
    var owner := ControllerOf(managed.owners);
    if serviceRef == me.name then w
    else if owner.None? || owner.value.uid != me.uid then w
    else if external.None? then w
    else DeleteExact(w, managed)
  }

  function Next(w: World, e: Event): World {
    match e
    case OtherCreate(k, owners, content) => Add(w, k, owners, content)
    case OtherUpdate(k, owners, content) =>
      if k in w.store then Put(w, w.store[k].(owners := owners, content := content)) else w
    case OtherDelete(k) => w.(store := w.store - {k})
    case Manage(me, kind, name, copy, wanted) =>
      var k := Key(kind, me.namespace, name);
      if ReadAt(w, k, copy) then Managed(w, me, k, copy, wanted) else w
    case CleanUp(me, serviceRef, managed, external) =>
      if ReadAt(w, Key(Service, me.namespace, me.name), Some(managed))
        && ReadAt(w, Key(Service, me.namespace, serviceRef), external)
      then CleanedUp(w, me, serviceRef, managed, external)
      else w
  }

  function Run(w: World, es: seq<Event>): World
    decreases |es|
  {
    if es == [] then w else Next(Run(w, es[..|es| - 1]), es[|es| - 1])
  }

  /** A resourceVersion identifies a stored version. */
  ghost predicate Sound(w: World) {
    && (forall k :: k in w.store ==> w.store[k].key == k && w.store[k] in w.versions)
    && (forall o :: o in w.versions ==> o.resourceVersion < w.nextVersion)
    && (forall a, b :: a in w.versions && b in w.versions && a.resourceVersion == b.resourceVersion ==> a == b)
  }

  lemma PutSound(w: World, o: Object)
    requires Sound(w)
    ensures Sound(Put(w, o))
  {
  }

  lemma AddSound(w: World, k: Key, owners: seq<OwnerRef>, content: string)
    requires Sound(w)
    ensures Sound(Add(w, k, owners, content))
  {
    if k !in w.store {
      PutSound(w.(nextUid := w.nextUid + 1), Object(k, w.nextUid, 0, owners, content));
    }
  }

  lemma ManagedSound(w: World, me: Server, k: Key, copy: Option<Object>, wanted: string)
    requires Sound(w)
    ensures Sound(Managed(w, me, k, copy, wanted))
  {
    if copy.None? {
      AddSound(w, k, [RefTo(me)], wanted);
    } else if Desired(me, copy.value, wanted).Some? {
      PutSound(w, Desired(me, copy.value, wanted).value);
    }
  }

  lemma NextSound(w: World, e: Event)
    requires Sound(w)
    ensures Sound(Next(w, e))
  {
    match e
    case OtherCreate(k, owners, content) => AddSound(w, k, owners, content);
    case OtherUpdate(k, owners, content) =>
      if k in w.store {
        PutSound(w, w.store[k].(owners := owners, content := content));
      }
    case OtherDelete(k) =>
    case Manage(me, kind, name, copy, wanted) => ManagedSound(w, me, Key(kind, me.namespace, name), copy, wanted);
    case CleanUp(me, serviceRef, managed, external) =>
  }

  lemma {:induction false} RunSound(w: World, es: seq<Event>)
    requires Sound(w)
    ensures Sound(Run(w, es))
    decreases |es|
  {
    if es != [] {
      RunSound(w, es[..|es| - 1]);
      NextSound(Run(w, es[..|es| - 1]), es[|es| - 1]);
    }
  }

  // ---- What the operator may touch ----

  /** What is written back over a copy that is ours. */
  lemma DesiredOurs(me: Server, o: Object, wanted: string)
    requires Desired(me, o, wanted).Some?
    ensures ValidOwnership(o, me)
    ensures var o' := Desired(me, o, wanted).value;
      && o' == o.(owners := o'.owners, content := wanted)
      && (o.key.kind == GatewayBinding ==> o'.owners == o.owners)
      && (o.key.kind != GatewayBinding ==> ControllerOf(o'.owners) == Some(RefTo(me)))
    ensures o.key.kind != GatewayBinding ==> SameObject(ControllerOf(o.owners).value, RefTo(me))
  {
    if o.key.kind != GatewayBinding {
      SetControllerAdopts(o.owners, me);
    }
  }

  ghost predicate OnlyChanged(w: World, w': World, at: Key) {
    && (forall k :: k != at ==> (k in w.store <==> k in w'.store))
    && (forall k :: k != at && k in w.store && k in w'.store ==> w'.store[k] == w.store[k])
  }

  lemma UpdateReplaces(w: World, copy: Object, o: Object)
    requires Sound(w) && copy in w.versions && o == copy.(owners := o.owners, content := o.content)
    requires Update(w, o) != w
    ensures copy.key in w.store && w.store[copy.key] == copy
    ensures Update(w, o) == Put(w, o) && OnlyChanged(w, Put(w, o), copy.key)
  {
  }

  /**
   Whatever ran before and whichever version the operator had read, an update that takes
   effect replaces exactly that version of an object that is ours. Except for bindings,
   its controller already was an MCPServer of this name, and is this very server afterwards.
   */
  lemma UpdatesHitOurs(es: seq<Event>, me: Server, kind: ResourceKind, name: string, copy: Object, wanted: string)
    requires var w := Run(EMPTY, es);
      Next(w, Manage(me, kind, name, Some(copy), wanted)) != w
    ensures var w := Run(EMPTY, es);
      var w' := Next(w, Manage(me, kind, name, Some(copy), wanted));
      && copy.key == Key(kind, me.namespace, name)
      && copy.key in w.store && w.store[copy.key] == copy
      && ValidOwnership(copy, me)
      && OnlyChanged(w, w', copy.key)
      && copy.key in w'.store && w'.store[copy.key].content == wanted && w'.store[copy.key].uid == copy.uid
      && (kind == GatewayBinding ==> w'.store[copy.key].owners == copy.owners)
      && (kind != GatewayBinding ==>
            && ServerOfSameName(ControllerOf(copy.owners).value, copy, me)
            && ControllerOf(w'.store[copy.key].owners) == Some(RefTo(me)))
  {
    var w := Run(EMPTY, es);
    RunSound(EMPTY, es);
    OwnGroup(me);
    DesiredOurs(me, copy, wanted);
    UpdateReplaces(w, copy, Desired(me, copy, wanted).value);
  }

  /**
   Service clean-up deletes only the version it read, controlled by this very server,
   never the referenced Service, and only after a read returned the referenced Service.
   */
  lemma CleanUpDeletesOwnService(
    es: seq<Event>, me: Server, serviceRef: string, managed: Object, external: Option<Object>)
    requires var w := Run(EMPTY, es);
      Next(w, CleanUp(me, serviceRef, managed, external)) != w
    ensures var w := Run(EMPTY, es);
      var w' := Next(w, CleanUp(me, serviceRef, managed, external));
      && managed.key == Key(Service, me.namespace, me.name)
      && managed.key in w.store && w.store[managed.key] == managed
      && w'.store == w.store - {managed.key} && w'.versions == w.versions
      && ControllerOf(managed.owners).Some? && ControllerOf(managed.owners).value.uid == me.uid
      && serviceRef != me.name
      && external.Some? && external.value in w.versions && external.value.key == Key(Service, me.namespace, serviceRef)
  {
    RunSound(EMPTY, es);
  }

  /** The operator's updates, creates and Service clean-up for this server. */
  predicate ByOperatorFor(e: Event, me: Server) {
    (e.Manage? && e.me == me) || (e.CleanUp? && e.self == me)
  }

  /**
   In every reachable state the operator's updates, creates and Service clean-up leave every
   object it may not manage exactly as it is. Deletes of gateway bindings are not among them.
   */
  lemma ForeignObjectsUntouched(es: seq<Event>, e: Event, me: Server, k: Key)
    requires ByOperatorFor(e, me) && k in Run(EMPTY, es).store && !ValidOwnership(Run(EMPTY, es).store[k], me)
    ensures var w := Run(EMPTY, es);
      k in Next(w, e).store && Next(w, e).store[k] == w.store[k]
  {
    var w := Run(EMPTY, es);
    if Next(w, e) != w {
      match e
      case Manage(me, kind, name, copy, wanted) =>
        if copy.Some? {
          UpdatesHitOurs(es, me, kind, name, copy.value, wanted);
        }
      case CleanUp(me, serviceRef, managed, external) =>
        CleanUpDeletesOwnService(es, me, serviceRef, managed, external);
    }
  }

  // ---- Progress ----

  /** Nothing left to write: already controlled by this very server with the wanted content. */
  predicate Settled(o: Object, me: Server, wanted: string) {
    ControllerOf(o.owners).Some? && ControllerOf(o.owners).value.uid == me.uid && o.content == wanted
  }

  lemma AdoptableDesired(me: Server, o: Object, wanted: string)
    requires o.key.kind != GatewayBinding && ControllerOf(o.owners).Some?
    requires ServerOfSameName(ControllerOf(o.owners).value, o, me)
    ensures Desired(me, o, wanted).None? <==> Settled(o, me, wanted)
  {
    OwnGroup(me);
  }

  /**
   Managing the stored version of an object controlled by an MCPServer of this name always ends
   with the wanted content under this very server, adopting it if need be; a settled object is
   not written again.
   */
  lemma ManageConverges(es: seq<Event>, me: Server, kind: ResourceKind, name: string, wanted: string)
    requires kind != GatewayBinding && Key(kind, me.namespace, name) in Run(EMPTY, es).store
    requires var o := Run(EMPTY, es).store[Key(kind, me.namespace, name)];
      ControllerOf(o.owners).Some? && ServerOfSameName(ControllerOf(o.owners).value, o, me)
    ensures var k, w := Key(kind, me.namespace, name), Run(EMPTY, es);
      var w' := Next(w, Manage(me, kind, name, Some(w.store[k]), wanted));
      && k in w'.store && Settled(w'.store[k], me, wanted)
      && (Settled(w.store[k], me, wanted) ==> w' == w)
      && (!Settled(w.store[k], me, wanted) ==> ControllerOf(w'.store[k].owners) == Some(RefTo(me)))
  {
    var k, w := Key(kind, me.namespace, name), Run(EMPTY, es);
    RunSound(EMPTY, es);
    var o := w.store[k];
    AdoptableDesired(me, o, wanted);
    if Desired(me, o, wanted).Some? {
      DesiredOurs(me, o, wanted);
    }
  }

  /** Where nothing is stored the object is created, controlled by this server. */
  lemma ManageCreates(es: seq<Event>, me: Server, kind: ResourceKind, name: string, wanted: string)
    requires Key(kind, me.namespace, name) !in Run(EMPTY, es).store
    ensures var k, w := Key(kind, me.namespace, name), Run(EMPTY, es);
      var w' := Next(w, Manage(me, kind, name, None, wanted));
      && k in w'.store && w'.store[k].content == wanted && ControllerOf(w'.store[k].owners) == Some(RefTo(me))
      && OnlyChanged(w, w', k)
  {
  }

  /** With all four guards met on the stored version, the managed Service is gone. */
  lemma CleanUpCompletes(es: seq<Event>, me: Server, serviceRef: string, external: Object)
    requires var w, k := Run(EMPTY, es), Key(Service, me.namespace, me.name);
      && serviceRef != me.name && k in w.store
      && ControllerOf(w.store[k].owners).Some? && ControllerOf(w.store[k].owners).value.uid == me.uid
      && external in w.versions && external.key == Key(Service, me.namespace, serviceRef)
    ensures var w, k := Run(EMPTY, es), Key(Service, me.namespace, me.name);
      Next(w, CleanUp(me, serviceRef, w.store[k], Some(external))).store == w.store - {k}
  {
    RunSound(EMPTY, es);
  }

  /** A foreign or uncontrolled object is never written, whatever copy of it was read. */
  lemma ForeignCopyRefused(me: Server, o: Object, wanted: string)
    requires !ValidOwnership(o, me)
    ensures Desired(me, o, wanted).None?
  {
  }

  /** References of any API version of the group are recognised, and only of that group. */
  lemma AnyVersionRecognised(ref: OwnerRef, group: string, version: string)
    requires Slashes(group) == 0 && Slashes(version) == 0 && ref.kind == KIND
    ensures ref.apiVersion == group + ("/" + version) ==> (IsSameGroupKind(ref) <==> group == GROUP)
    ensures ref.apiVersion == version ==> !IsSameGroupKind(ref)
    ensures Slashes(ref.apiVersion) > 1 ==> !IsSameGroupKind(ref)
  {
    GroupOf(group, version);
    assert |GROUP| > 0;
  }

  /** A binding left behind by a deleted server of the same name is rewritten but not adopted. */
  lemma OrphanedBindingNotAdopted(es: seq<Event>, me: Server, copy: Object, wanted: string)
    requires var w := Run(EMPTY, es);
      copy.key in w.store && w.store[copy.key] == copy
    requires copy.key.kind == GatewayBinding && copy.key.namespace == me.namespace && copy.content != wanted
    requires ValidOwnership(copy, me) && ControllerOf(copy.owners).value.uid != me.uid
    ensures var w' := Next(Run(EMPTY, es), Manage(me, GatewayBinding, copy.key.name, Some(copy), wanted));
      && copy.key in w'.store && w'.store[copy.key].content == wanted
      && ControllerOf(w'.store[copy.key].owners).value.uid != me.uid
  {
    RunSound(EMPTY, es);
  }

  // ---- The same steps as the source performs them ----

  class ApiServer {
    var world: World

    constructor ()
      ensures world == EMPTY
    {
      world := EMPTY;
    }

    /** Other writers, between two calls of the operator. */
    method Interleave(others: seq<Event>)
      modifies this
      ensures world == Run(old(world), others)
    {
      for i := 0 to |others|
        invariant world == Run(old(world), others[..i])
      {
        assert others[..i + 1][..i] == others[..i];
        world := Next(world, others[i]);
      }
      assert others[..|others|] == others;
    }

    method Get(k: Key) returns (copy: Option<Object>)
      ensures copy == if k in world.store then Some(world.store[k]) else None
    {
      copy := if k in world.store then Some(world.store[k]) else None;
    }

    /** Read, let others act, then validate, adopt and write: reconcileService and its siblings. */
    method ReconcileOwned(
      me: Server, kind: ResourceKind, name: string, wanted: string, others: seq<Event>)
      returns (ghost copy: Option<Object>)
      requires Sound(world) && kind != GatewayBinding
      modifies this
      ensures copy == if Key(kind, me.namespace, name) in old(world).store
        then Some(old(world).store[Key(kind, me.namespace, name)]) else None
      ensures world == Next(Run(old(world), others), Manage(me, kind, name, copy, wanted))
    {
      var k := Key(kind, me.namespace, name);
      var existing := Get(k);
      copy := existing;
      Interleave(others);
      VersionsKept(old(world), others);
      if existing.None? {
        world := Add(world, k, [RefTo(me)], wanted);
        return;
      }
      var o := existing.value;
      if !ValidOwnership(o, me) {
        return;
      }
      var previousOwner := ControllerOf(o.owners).value.uid;
      var owners := SetController(o.owners, me);
      if owners.None? {
        return;
      }
      SetControllerAdopts(o.owners, me);
      o := o.(owners := owners.value);
      var adopted := previousOwner != ControllerOf(o.owners).value.uid;
      if o.content != wanted || adopted {
        o := o.(content := wanted);
        world := Update(world, o);
      }
    }

    /** The guarded clean-up with other writers acting after each read. */
    method CleanUpManagedService(me: Server, serviceRef: string, afterFirst: seq<Event>, afterSecond: seq<Event>)
      returns (ghost managed: Option<Object>, ghost external: Option<Object>)
      requires Sound(world)
      modifies this
      ensures managed.Some? ==> managed.value in old(world).versions
      ensures serviceRef == me.name || managed.None? ==> world == old(world)
      ensures serviceRef != me.name && managed.Some? ==>
        var owner := ControllerOf(managed.value.owners);
        var others := if owner.Some? && owner.value.uid == me.uid then afterFirst + afterSecond else [];
        world == Next(Run(old(world), others), CleanUp(me, serviceRef, managed.value, external))
    {
      managed, external := None, None;
      if serviceRef == me.name {
        return;
      }
      var existing := Get(Key(Service, me.namespace, me.name));
      managed := existing;
      if existing.None? {
        return;
      }
      var owner := ControllerOf(existing.value.owners);
      if owner.None? || owner.value.uid != me.uid {
        return;
      }
      Interleave(afterFirst);
      var found := Get(Key(Service, me.namespace, serviceRef));
      external := found;
      RunSound(old(world), afterFirst);
      VersionsKept(old(world), afterFirst);
      ghost var between := world;
      Interleave(afterSecond);
      VersionsKept(between, afterSecond);
      RunAppend(old(world), afterFirst, afterSecond);
      if found.None? {
        return;
      }
      world := DeleteExact(world, existing.value);
    }
  }

  lemma {:induction false} VersionsKept(w: World, es: seq<Event>)
    ensures w.versions <= Run(w, es).versions
    decreases |es|
  {
    if es != [] {
      VersionsKept(w, es[..|es| - 1]);
    }
  }

  lemma {:induction false} RunAppend(w: World, a: seq<Event>, b: seq<Event>)
    ensures Run(w, a + b) == Run(Run(w, a), b)
    decreases |b|
  {
    if b == [] {
      assert a + b == a;
    } else {
      RunAppend(w, a, b[..|b| - 1]);
      assert (a + b)[..|a + b| - 1] == a + b[..|b| - 1];
    }
  }
}
