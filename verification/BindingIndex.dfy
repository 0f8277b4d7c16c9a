/**
 The binding object as the provider helpers change it in place, and the reverse index
 kept in its annotations: which bindings a Service event must reconcile.
 */
module BindingIndex {
  import opened Wrappers
  import opened Conditions
  import opened GatewayProvider
  import opened GatewayBinding

  datatype AnnotationKey = GatewayRef | ServiceRef | ExtensionRef | OtherKey(text: string)

  /** Reading a Go map: a missing key reads as the empty string. */
  function ValueAt(m: map<AnnotationKey, string>, k: AnnotationKey): string {
    if k in m then m[k] else ""
  }

  predicate Recorded(m: map<AnnotationKey, string>, desired: map<AnnotationKey, string>) {
    forall k :: k in desired ==> ValueAt(m, k) == desired[k]
  }

  /** Every desired key reads as wanted and every other key is as before. */
  ghost predicate Overlaid(
    m: map<AnnotationKey, string>, before: map<AnnotationKey, string>, desired: map<AnnotationKey, string>) {
    forall k :: ValueAt(m, k) == if k in desired then desired[k] else ValueAt(before, k)
  }

  class BindingObject {
    var value: Binding
    var annotations: map<AnnotationKey, string>

    constructor (value: Binding)
      ensures this.value == value && annotations == map[]
    {
      this.value := value;
      annotations := map[];
    }

    /** UpdateBindingStatus: condition and URL change together, or nothing is written. */
    method UpdateBindingStatus(d: Decision, now: int) returns (written: bool)
      requires d.Write?
      modifies this`value
      ensures written <==> !Settled(old(value), d)
      ensures value == if written then WithStatus(old(value), d, now) else old(value)
      ensures Settled(value, d)
    {
      if Settled(value, d) {
        return false;
      }
      var c := Condition(Registered, d.status, d.reason, d.message, value.generation, now);
      SetConditionFind(value.conditions, c, Registered);
      value := value.(conditions := SetCondition(value.conditions, c));
      value := value.(url := d.url);
      return true;
    }

    /** EnsureBindingAnnotations: patch only when some desired value is missing. */
    method EnsureBindingAnnotations(desired: map<AnnotationKey, string>) returns (patched: bool)
      modifies this`annotations
      ensures patched <==> !Recorded(old(annotations), desired)
      ensures !patched ==> annotations == old(annotations)
      ensures Overlaid(annotations, old(annotations), desired)
    {
      var changed := false;
      var todo := desired.Keys;
      while todo != {}
        invariant todo <= desired.Keys && !changed
        invariant forall k :: k in desired && k !in todo ==> ValueAt(annotations, k) == desired[k]
        decreases todo
      {
        var k :| k in todo;
        if ValueAt(annotations, k) != desired[k] {
          changed := true;
          break;
        }
        todo := todo - {k};
      }
      if changed {
        annotations := annotations + desired;
      }
      patched := changed;
    }
  }

  // ---- Runs of recording and the reverse lookup ----

  function RefKey(namespace: string, name: string): string {
    namespace + "/" + name
  }

  lemma RefKeyInjective(namespace: string, a: string, b: string)
    requires RefKey(namespace, a) == RefKey(namespace, b)
    ensures a == b
  {
    assert a == RefKey(namespace, a)[|namespace| + 1..];
    assert b == RefKey(namespace, b)[|namespace| + 1..];
  }

  /** A stored binding, with the backend Service last recorded for it. */
  datatype Entry = Entry(namespace: string, provider: Provider, annotations: map<AnnotationKey, string>,
    backend: Option<string>)

  datatype Event =
    | Add(name: string, namespace: string, provider: Provider)
    | Remove(name: string)
    | RecordBackend(name: string, service: string)
    | RecordGateway(name: string, namespace: string, gateway: string)
    | RecordExtension(name: string, namespace: string, extension: string)
    | Annotate(name: string, text: string, value: string)

  function Stamp(e: Entry, k: AnnotationKey, value: string): Entry {
    e.(annotations := e.annotations[k := value])
  }

  /** Bindings by a key that determines their namespace. */
  type Store = map<string, Entry>

  /** The server is read from the binding's namespace, so that is the namespace recorded. */
  function Next(s: Store, e: Event): Store {
    match e
    case Add(name, namespace, provider) => if name in s then s else s[name := Entry(namespace, provider, map[], None)]
    case Remove(name) => s - {name}
    case RecordBackend(name, service) =>
      if name !in s then s
        else s[name := Stamp(s[name], ServiceRef, RefKey(s[name].namespace, service)).(backend := Some(service))]
    case RecordGateway(name, namespace, gateway) =>
      if name !in s then s else s[name := Stamp(s[name], GatewayRef, RefKey(namespace, gateway))]
    case RecordExtension(name, namespace, extension) =>
      if name !in s then s else s[name := Stamp(s[name], ExtensionRef, RefKey(namespace, extension))]
    case Annotate(name, text, value) => if name !in s then s else s[name := Stamp(s[name], OtherKey(text), value)]
  }

  function Exec(es: seq<Event>): Store
    decreases |es|
  {
    if es == [] then map[] else Next(Exec(es[..|es| - 1]), es[|es| - 1])
  }

  ghost predicate Indexed(s: Store) {
    forall n :: n in s ==> EntryIndexed(s[n])
  }

  /** The service annotation spells out the backend last recorded, and is absent before the first. */
  ghost predicate EntryIndexed(e: Entry) {
    ValueAt(e.annotations, ServiceRef) == if e.backend.Some? then RefKey(e.namespace, e.backend.value) else ""
  }

  lemma StampIndexed(e: Entry, k: AnnotationKey, value: string)
    requires EntryIndexed(e) && k != ServiceRef
    ensures EntryIndexed(Stamp(e, k, value))
  {
  }

  lemma NextIndexed(s: Store, e: Event)
    requires Indexed(s)
    ensures Indexed(Next(s, e))
  {
    if !e.Add? && e.name in s {
      assert EntryIndexed(s[e.name]);
      match e
      case RecordGateway(name, namespace, gateway) => StampIndexed(s[name], GatewayRef, RefKey(namespace, gateway));
      case RecordExtension(name, namespace, extension) =>
        StampIndexed(s[name], ExtensionRef, RefKey(namespace, extension));
      case Annotate(name, text, value) => StampIndexed(s[name], OtherKey(text), value);
      case _ =>
    }
  }

  lemma {:induction false} AllIndexed(es: seq<Event>)
    ensures Indexed(Exec(es))
    decreases |es|
  {
    if es != [] {
      AllIndexed(es[..|es| - 1]);
      NextIndexed(Exec(es[..|es| - 1]), es[|es| - 1]);
    }
  }

  /** The bindings of a provider whose last recorded backend is this Service. */
  predicate Depends(e: Entry, provider: Provider, namespace: string, service: string) {
    e.namespace == namespace && e.provider == provider && e.backend == Some(service)
  }

  predicate Matches(e: Entry, provider: Provider, namespace: string, service: string) {
    e.namespace == namespace && e.provider == provider
      && ValueAt(e.annotations, ServiceRef) == RefKey(namespace, service)
  }

  lemma MatchesExactlyDependents(es: seq<Event>, n: string, provider: Provider, namespace: string, service: string)
    requires n in Exec(es)
    ensures Matches(Exec(es)[n], provider, namespace, service) <==> Depends(Exec(es)[n], provider, namespace, service)
  {
    AllIndexed(es);
    var e := Exec(es)[n];
    assert EntryIndexed(e);
    if Matches(e, provider, namespace, service) {
      assert RefKey(namespace, service) != "";
      RefKeyInjective(namespace, e.backend.value, service);
    }
  }

  /** FindBindingsForService over the listed bindings of any run: exactly the dependents, in list order. */
  method FindBindingsForService(
    ghost es: seq<Event>, store: Store, listed: seq<string>, provider: Provider, namespace: string, service: string)
    returns (requests: seq<string>)
    requires store == Exec(es) && forall n :: n in listed ==> n in store
    ensures requests == Dependents(store, listed, provider, namespace, service)
  {
    requests := [];
    for i := 0 to |listed|
      invariant requests == Dependents(store, listed[..i], provider, namespace, service)
    {
      assert listed[..i + 1][..i] == listed[..i];
      var e := store[listed[i]];
      MatchesExactlyDependents(es, listed[i], provider, namespace, service);
      if Matches(e, provider, namespace, service) {
        requests := requests + [listed[i]];
      }
    }
    assert listed[..|listed|] == listed;
  }

  function Dependents(
    s: Store, listed: seq<string>, provider: Provider, namespace: string, service: string): seq<string>
    requires forall n :: n in listed ==> n in s
    decreases |listed|
  {
    if listed == [] then []
    else
      var front, last := listed[..|listed| - 1], listed[|listed| - 1];
      Dependents(s, front, provider, namespace, service) + if Depends(s[last], provider, namespace, service)
        then [last] else []
  }

  /** No dependent is missed and nothing else is enqueued. */
  lemma {:induction false} DependentsExact(
    s: Store, listed: seq<string>, provider: Provider, namespace: string, service: string, n: string)
    requires forall n :: n in listed ==> n in s
    ensures n in Dependents(s, listed, provider, namespace, service)
      <==> n in listed && Depends(s[n], provider, namespace, service)
    decreases |listed|
  {
    if listed != [] {
      var front, last := listed[..|listed| - 1], listed[|listed| - 1];
      assert listed == front + [last];
      DependentsExact(s, front, provider, namespace, service, n);
    }
  }
}
