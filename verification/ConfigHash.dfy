/**
 The bytes computeConfigHash feeds to SHA-256. The hash itself stays abstract; what is
 proved is that its input identifies the referenced data. Bytes are modelled as characters.
 */
module ConfigHash {
  import opened Strings

  datatype Kind = ConfigMapKind | SecretKind

  /** A ConfigMap; a Secret is one whose values are all in data. */
  datatype Object = Object(data: map<string, string>, binaryData: map<string, string>) {
    /** The value written for each key: text data wins over binary data. */
    function Values(): map<string, string> { binaryData + data }
  }

  datatype Read = Found(content: Object) | NotFound | ReadError

  /** What one reconcile sees: the referenced names in spec order and the uncached reads. */
  datatype Snapshot = Snapshot(
    configMapNames: seq<string>,
    secretNames: seq<string>,
    configMap: string -> Read,
    secret: string -> Read)
  {
    function Names(kind: Kind): seq<string> {
      if kind == ConfigMapKind then configMapNames else secretNames
    }

    function Get(kind: Kind): string -> Read {
      if kind == ConfigMapKind then configMap else secret
    }
  }

  datatype Entry = Entry(kind: Kind, name: string, key: string, value: string)

  const NUL: char := '\0'

  function KindText(kind: Kind): string {
    if kind == ConfigMapKind then "configmap" else "secret"
  }

  function Record(e: Entry): string {
    KindText(e.kind) + ['/'] + (e.name + ['/'] + (e.key + ['='] + e.value)) + [NUL]
  }

  function Concat(es: seq<Entry>): string {
    if es == [] then [] else Record(es[0]) + Concat(es[1..])
  }

  // ---- Specification of the written stream ----

  /** Some enumeration of a set; Go ranges over map keys in no fixed order. */
  ghost function Enumerate(s: set<string>): (r: seq<string>)
    ensures multiset(r) == multiset(s)
  {
    if s == {} then []
    else
      var x :| x in s;
      [x] + Enumerate(s - {x})
  }

  ghost function SortedKeys(o: Object): (r: seq<string>)
    ensures forall k :: k in r <==> k in o.Values()
  {
    var keys := Enumerate(o.data.Keys) + Enumerate(o.binaryData.Keys);
    assert multiset(Sort(keys)) == multiset(o.data.Keys) + multiset(o.binaryData.Keys);
    assert forall k :: k in Sort(keys) <==> k in multiset(Sort(keys));
    Sort(keys)
  }

  ghost function ObjectEntries(
    kind: Kind, name: string, keys: seq<string>, values: map<string, string>): (r: seq<Entry>)
    requires forall k :: k in keys ==> k in values
  {
    seq(|keys|, i requires 0 <= i < |keys| => Entry(kind, name, keys[i], values[keys[i]]))
  }

  ghost function ReadEntries(kind: Kind, name: string, read: Read): seq<Entry> {
    if read.Found? then ObjectEntries(kind, name, SortedKeys(read.content), read.content.Values()) else []
  }

  ghost function NamesEntries(kind: Kind, names: seq<string>, get: string -> Read): seq<Entry> {
    if names == [] then [] else ReadEntries(kind, names[0], get(names[0])) + NamesEntries(kind, names[1..], get)
  }

  ghost function Entries(s: Snapshot): seq<Entry> {
    NamesEntries(ConfigMapKind, Sort(s.configMapNames), s.configMap)
      + NamesEntries(SecretKind, Sort(s.secretNames), s.secret)
  }

  /** The byte stream of a snapshot. */
  ghost function Stream(s: Snapshot): string {
    Concat(Entries(s))
  }

  // ---- The imperative computation ----

  lemma {:induction false} ConcatAppend(a: seq<Entry>, b: seq<Entry>)
    ensures Concat(a + b) == Concat(a) + Concat(b)
  {
    if a == [] {
      assert a + b == b;
    } else {
      assert (a + b)[1..] == a[1..] + b;
      ConcatAppend(a[1..], b);
    }
  }

  lemma {:induction false} NamesEntriesSnoc(kind: Kind, names: seq<string>, get: string -> Read, name: string)
    ensures NamesEntries(kind, names + [name], get)
      == NamesEntries(kind, names, get) + ReadEntries(kind, name, get(name))
  {
    if names == [] {
      assert (names + [name])[1..] == [];
    } else {
      assert (names + [name])[1..] == names[1..] + [name];
      NamesEntriesSnoc(kind, names[1..], get, name);
    }
  }

  /** Ranging over the keys of a map, in whatever order the runtime picks. */
  method RangeKeys(m: map<string, string>) returns (keys: seq<string>)
    ensures multiset(keys) == multiset(m.Keys)
  {
    keys := [];
    var left := m.Keys;
    while left != {}
      invariant left <= m.Keys && multiset(keys) + multiset(left) == multiset(m.Keys)
      decreases left
    {
      var k :| k in left;
      assert multiset(left) == multiset(left - {k}) + multiset{k};
      keys := keys + [k];
      left := left - {k};
    }
  }

  lemma ConcatSnoc(es: seq<Entry>, i: nat)
    requires i < |es|
    ensures Concat(es[..i + 1]) == Concat(es[..i]) + Record(es[i])
  {
    assert es[..i + 1] == es[..i] + [es[i]];
    ConcatAppend(es[..i], [es[i]]);
    assert Concat([es[i]]) == Record(es[i]) + Concat([]);
  }

  /** A record per key, in the order given. */
  method WriteRecords(kind: Kind, name: string, keys: seq<string>, o: Object) returns (written: string)
    requires forall k :: k in keys ==> k in o.Values()
    ensures written == Concat(ObjectEntries(kind, name, keys, o.Values()))
  {
    ghost var all := ObjectEntries(kind, name, keys, o.Values());
    written := [];
    for i := 0 to |keys|
      invariant written == Concat(all[..i])
    {
      var k := keys[i];
      assert k in keys;
      var v := if k in o.data then o.data[k] else o.binaryData[k];
      assert all[i] == Entry(kind, name, k, v);
      ConcatSnoc(all, i);
      written := written + Record(Entry(kind, name, k, v));
    }
    assert all[..|keys|] == all;
  }

  lemma SortedKeysOf(o: Object, keys: seq<string>)
    requires multiset(keys) == multiset(o.data.Keys) + multiset(o.binaryData.Keys)
    ensures Sort(keys) == SortedKeys(o)
  {
    SortPermutation(keys, Enumerate(o.data.Keys) + Enumerate(o.binaryData.Keys));
  }

  /** One object: collect the keys, sort them, write the records. */
  method WriteObject(kind: Kind, name: string, o: Object) returns (written: string)
    ensures written == Concat(ReadEntries(kind, name, Found(o)))
    ensures forall k :: k in o.data ==> k in o.Values() && o.Values()[k] == o.data[k]
  {
    var dataKeys := RangeKeys(o.data);
    var binaryKeys := RangeKeys(o.binaryData);
    var keys := Sort(dataKeys + binaryKeys);
    SortedKeysOf(o, dataKeys + binaryKeys);
    written := WriteRecords(kind, name, keys, o);
  }

  lemma WriteStep(kind: Kind, names: seq<string>, get: string -> Read, before: seq<Entry>, i: nat)
    requires i < |names|
    ensures Concat(before + NamesEntries(kind, names[..i + 1], get)) ==
            Concat(before + NamesEntries(kind, names[..i], get)) + Concat(ReadEntries(kind, names[i], get(names[i])))
  {
    assert names[..i + 1] == names[..i] + [names[i]];
    NamesEntriesSnoc(kind, names[..i], get, names[i]);
    ConcatAfter(before, NamesEntries(kind, names[..i], get), ReadEntries(kind, names[i], get(names[i])));
  }

  lemma ConcatAfter(before: seq<Entry>, a: seq<Entry>, b: seq<Entry>)
    ensures Concat(before + (a + b)) == Concat(before + a) + Concat(b)
  {
    assert before + (a + b) == (before + a) + b;
    ConcatAppend(before + a, b);
  }

  datatype Hash = NoHash | Digest(sum: string) | HashError

  ghost predicate AnyFound(names: seq<string>, get: string -> Read) {
    exists i :: 0 <= i < |names| && get(names[i]).Found?
  }

  ghost predicate AnyError(names: seq<string>, get: string -> Read) {
    exists i :: 0 <= i < |names| && get(names[i]).ReadError?
  }

  lemma AnyIgnoresOrder(a: seq<string>, b: seq<string>, get: string -> Read)
    requires multiset(a) == multiset(b)
    ensures AnyFound(a, get) ==> AnyFound(b, get)
    ensures AnyError(a, get) ==> AnyError(b, get)
  {
    forall i | 0 <= i < |a| ensures exists j :: 0 <= j < |b| && b[j] == a[i] {
      SameMembers(a, b, a[i]);
    }
  }

  lemma AnySnoc(names: seq<string>, get: string -> Read, i: nat)
    requires i < |names|
    ensures AnyFound(names[..i + 1], get) <==> AnyFound(names[..i], get) || get(names[i]).Found?
    ensures AnyError(names[..i + 1], get) <==> AnyError(names[..i], get) || get(names[i]).ReadError?
    ensures AnyError(names[..i + 1], get) ==> AnyError(names, get)
  {
    var p, q := names[..i], names[..i + 1];
    assert q[i] == names[i];
    assert forall j :: 0 <= j < i ==> p[j] == q[j] == names[j];
  }

  /** All objects of one kind in the order given, appended to a stream; stops at the first read error. */
  method WriteSorted(kind: Kind, names: seq<string>, get: string -> Read, ghost before: seq<Entry>, stream: string)
    returns (written: string, found: bool, failed: bool)
    requires stream == Concat(before)
    ensures failed <==> AnyError(names, get)
    ensures !failed ==> (found <==> AnyFound(names, get))
    ensures !failed ==> written == Concat(before + NamesEntries(kind, names, get))
  {
    written, found, failed := stream, false, false;
    assert before + NamesEntries(kind, names[..0], get) == before;
    for i := 0 to |names|
      invariant written == Concat(before + NamesEntries(kind, names[..i], get))
      invariant found <==> AnyFound(names[..i], get)
      invariant !AnyError(names[..i], get)
    {
      AnySnoc(names, get, i);
      WriteStep(kind, names, get, before, i);
      var read := get(names[i]);
      if read.ReadError? {
        failed := true;
        return;
      }
      if read.Found? {
        found := true;
        var chunk := WriteObject(kind, names[i], read.content);
        written := written + chunk;
      }
    }
    assert names[..|names|] == names;
  }

  method WriteKind(kind: Kind, names: seq<string>, get: string -> Read, ghost before: seq<Entry>, stream: string)
    returns (written: string, found: bool, failed: bool)
    requires stream == Concat(before)
    ensures failed <==> AnyError(names, get)
    ensures !failed ==> (found <==> AnyFound(names, get))
    ensures !failed ==> written == Concat(before + NamesEntries(kind, Sort(names), get))
  {
    AnyIgnoresOrder(names, Sort(names), get);
    AnyIgnoresOrder(Sort(names), names, get);
    written, found, failed := WriteSorted(kind, Sort(names), get, before, stream);
  }

  lemma EmptyStream(s: Snapshot)
    requires s.configMapNames == [] && s.secretNames == []
    ensures Stream(s) == []
  {
    assert Entries(s) == [];
  }

  /** computeConfigHash, returning the bytes written beside the result. */
  method ComputeConfigHash(s: Snapshot, sha: string -> string) returns (h: Hash, written: string)
    ensures h == HashError <==> AnyError(s.configMapNames, s.configMap) || AnyError(s.secretNames, s.secret)
    ensures h != HashError ==> written == Stream(s)
    ensures h != HashError ==>
      h == if AnyFound(s.configMapNames, s.configMap) || AnyFound(s.secretNames, s.secret) then Digest(sha(written))
        else NoHash
  {
    written := [];
    if |s.configMapNames| == 0 && |s.secretNames| == 0 {
      EmptyStream(s);
      h := NoHash;
      return;
    }
    var foundMaps, failedMaps;
    written, foundMaps, failedMaps := WriteKind(ConfigMapKind, s.configMapNames, s.configMap, [], []);
    if failedMaps {
      h := HashError;
      return;
    }
    ghost var maps := NamesEntries(ConfigMapKind, Sort(s.configMapNames), s.configMap);
    assert [] + maps == maps;
    var foundSecrets, failedSecrets;
    written, foundSecrets, failedSecrets := WriteKind(SecretKind, s.secretNames, s.secret, maps, written);
    if failedSecrets {
      h := HashError;
    } else if foundMaps || foundSecrets {
      h := Digest(sha(written));
    } else {
      h := NoHash;
    }
  }

  // ---- Unique decodability ----

  /** Names hold no slash, keys no equals sign, and nothing holds a NUL byte. */
  predicate Clean(e: Entry) {
    && '/' !in e.name && '=' !in e.key
    && NUL !in e.name && NUL !in e.key && NUL !in e.value
  }

  function Body(e: Entry): string {
    KindText(e.kind) + ['/'] + (e.name + ['/'] + (e.key + ['='] + e.value))
  }

  lemma BodyInjective(e: Entry, f: Entry)
    requires Clean(e) && Clean(f) && Body(e) == Body(f)
    ensures e == f
  {
    var restE, restF := e.name + ['/'] + (e.key + ['='] + e.value), f.name + ['/'] + (f.key + ['='] + f.value);
    CutUnique(KindText(e.kind), KindText(f.kind), '/', restE, restF);
    assert |KindText(e.kind)| == |KindText(f.kind)|;
    CutUnique(e.name, f.name, '/', e.key + ['='] + e.value, f.key + ['='] + f.value);
    CutUnique(e.key, f.key, '=', e.value, f.value);
  }

  ghost predicate AllClean(es: seq<Entry>) {
    forall i :: 0 <= i < |es| ==> Clean(es[i])
  }

  /** Two lists of clean entries that serialize alike are the same list. */
  lemma {:induction false} ConcatInjective(a: seq<Entry>, b: seq<Entry>)
    requires AllClean(a) && AllClean(b) && Concat(a) == Concat(b)
    ensures a == b
  {
    if a != [] && b != [] {
      FirstRecordCut(a, b);
      ConcatInjective(a[1..], b[1..]);
      assert a == [a[0]] + a[1..] && b == [b[0]] + b[1..];
    }
  }

  /** The first record can be cut off either stream at its NUL byte. */
  lemma FirstRecordCut(a: seq<Entry>, b: seq<Entry>)
    requires a != [] && b != [] && Clean(a[0]) && Clean(b[0]) && Concat(a) == Concat(b)
    ensures a[0] == b[0] && Concat(a[1..]) == Concat(b[1..])
  {
    CutUnique(Body(a[0]), Body(b[0]), NUL, Concat(a[1..]), Concat(b[1..]));
    BodyInjective(a[0], b[0]);
  }

  // ---- The stream depends on the content only ----

  predicate EntryLess(e: Entry, f: Entry) {
    || (e.kind == ConfigMapKind && f.kind == SecretKind)
    || (e.kind == f.kind && (Less(e.name, f.name) || (e.name == f.name && Less(e.key, f.key))))
  }

  ghost predicate Increasing(es: seq<Entry>) {
    forall i, j :: 0 <= i < j < |es| ==> EntryLess(es[i], es[j])
  }

  lemma EntryLessAsymmetric(e: Entry, f: Entry)
    requires EntryLess(e, f)
    ensures !EntryLess(f, e)
  {
    if e.kind == f.kind {
      if Less(e.name, f.name) { LessAsymmetric(e.name, f.name); }
      if e.name == f.name { LessAsymmetric(e.key, f.key); }
    }
  }

  lemma {:induction false} IncreasingUnique(a: seq<Entry>, b: seq<Entry>)
    requires Increasing(a) && Increasing(b)
    requires forall e :: e in a <==> e in b
    ensures a == b
  {
    assert |b| > 0 ==> b[0] in a;
    if a != [] {
      assert a[0] in b && b != [];
      if a[0] != b[0] {
        EntryLessAsymmetric(a[0], b[0]);
      }
      forall e ensures e in a[1..] <==> e in b[1..] {
        LessIrreflexiveEntry(a, e);
        LessIrreflexiveEntry(b, e);
      }
      IncreasingUnique(a[1..], b[1..]);
      assert a == [a[0]] + a[1..] && b == [b[0]] + b[1..];
    }
  }

  lemma LessIrreflexiveEntry(a: seq<Entry>, e: Entry)
    requires Increasing(a) && a != []
    ensures e in a[1..] <==> e in a && e != a[0]
  {
    if e in a[1..] {
      var i :| 0 <= i < |a[1..]| && a[1..][i] == e;
      EntryLessAsymmetric(a[0], a[i + 1]);
    }
  }

  /** The entry belongs to the referenced data: it is the value of a key of a found object. */
  ghost predicate Holds(e: Entry, s: Snapshot) {
    && e.name in s.Names(e.kind)
    && s.Get(e.kind)(e.name).Found?
    && e.key in s.Get(e.kind)(e.name).content.Values()
    && s.Get(e.kind)(e.name).content.Values()[e.key] == e.value
  }

  /** Extractor output has no duplicates and an object's two key sets are disjoint. */
  ghost predicate WellFormed(s: Snapshot) {
    && Distinct(s.configMapNames) && Distinct(s.secretNames)
    && forall kind, n :: n in s.Names(kind) && s.Get(kind)(n).Found? ==>
         s.Get(kind)(n).content.data.Keys !! s.Get(kind)(n).content.binaryData.Keys
  }

  ghost predicate Separable(s: Snapshot) {
    forall e: Entry :: Holds(e, s) ==> Clean(e)
  }

  lemma SortedKeysIncreasing(o: Object)
    requires o.data.Keys !! o.binaryData.Keys
    ensures forall i, j :: 0 <= i < j < |SortedKeys(o)| ==> Less(SortedKeys(o)[i], SortedKeys(o)[j])
  {
    var keys := Enumerate(o.data.Keys) + Enumerate(o.binaryData.Keys);
    assert multiset(keys) == multiset(o.data.Keys) + multiset(o.binaryData.Keys);
    DistinctCount(keys);
    SortDistinct(keys);
  }

  /** The entry is a key of this object with its value. */
  ghost predicate Contributes(kind: Kind, name: string, r: Read, e: Entry) {
    && e.kind == kind && e.name == name && r.Found?
    && e.key in r.content.Values() && r.content.Values()[e.key] == e.value
  }

  lemma ObjectEntriesExact(kind: Kind, name: string, keys: seq<string>, values: map<string, string>, e: Entry)
    requires forall k :: k in keys ==> k in values
    ensures e in ObjectEntries(kind, name, keys, values)
      <==> e.kind == kind && e.name == name && e.key in keys && values[e.key] == e.value
  {
    var entries := ObjectEntries(kind, name, keys, values);
    if e.kind == kind && e.name == name && e.key in keys && values[e.key] == e.value {
      var i :| 0 <= i < |keys| && keys[i] == e.key;
      assert entries[i] == e;
    }
  }

  lemma ReadEntriesExact(kind: Kind, name: string, r: Read, e: Entry)
    ensures e in ReadEntries(kind, name, r) <==> Contributes(kind, name, r, e)
  {
    if r.Found? {
      ObjectEntriesExact(kind, name, SortedKeys(r.content), r.content.Values(), e);
    }
  }

  lemma {:induction false} NamesEntriesExact(kind: Kind, names: seq<string>, get: string -> Read, e: Entry)
    ensures e in NamesEntries(kind, names, get) <==>
      && e.kind == kind && e.name in names && get(e.name).Found?
      && e.key in get(e.name).content.Values() && get(e.name).content.Values()[e.key] == e.value
  {
    if names != [] {
      NamesEntriesExact(kind, names[1..], get, e);
      ReadEntriesExact(kind, names[0], get(names[0]), e);
      assert e.name in names <==> e.name == names[0] || e.name in names[1..];
    }
  }

  lemma {:induction false} NamesEntriesIncreasing(kind: Kind, names: seq<string>, get: string -> Read)
    requires forall i, j :: 0 <= i < j < |names| ==> Less(names[i], names[j])
    requires forall n :: n in names && get(n).Found? ==> get(n).content.data.Keys !! get(n).content.binaryData.Keys
    ensures Increasing(NamesEntries(kind, names, get))
  {
    if names != [] {
      NamesEntriesIncreasing(kind, names[1..], get);
      var head, tail := ReadEntries(kind, names[0], get(names[0])), NamesEntries(kind, names[1..], get);
      ReadEntriesIncreasing(kind, names[0], get(names[0]));
      forall j | 0 <= j < |tail| ensures tail[j].kind == kind && Less(names[0], tail[j].name) {
        NameBelow(kind, names, get, j);
      }
      IncreasingAppend(head, tail, kind, names[0]);
    }
  }

  lemma ReadEntriesIncreasing(kind: Kind, name: string, r: Read)
    requires r.Found? ==> r.content.data.Keys !! r.content.binaryData.Keys
    ensures Increasing(ReadEntries(kind, name, r))
    ensures var es := ReadEntries(kind, name, r);
      forall i :: 0 <= i < |es| ==> Of(es[i], kind, name)
  {
    if r.Found? {
      SortedKeysIncreasing(r.content);
    }
  }

  predicate Of(e: Entry, kind: Kind, name: string) {
    e.kind == kind && e.name == name
  }

  lemma IncreasingAppend(head: seq<Entry>, tail: seq<Entry>, kind: Kind, name: string)
    requires Increasing(head) && Increasing(tail)
    requires forall i :: 0 <= i < |head| ==> Of(head[i], kind, name)
    requires forall j :: 0 <= j < |tail| ==> tail[j].kind == kind && Less(name, tail[j].name)
    ensures Increasing(head + tail)
  {
    var all := head + tail;
    forall i, j | 0 <= i < j < |all| ensures EntryLess(all[i], all[j]) {
      if i < |head| && |head| <= j {
        assert all[i] == head[i] && all[j] == tail[j - |head|];
      } else if |head| <= i {
        assert all[i] == tail[i - |head|] && all[j] == tail[j - |head|];
      } else {
        assert all[i] == head[i] && all[j] == head[j];
      }
    }
  }

  lemma NameBelow(kind: Kind, names: seq<string>, get: string -> Read, j: nat)
    requires names != [] && forall i :: 0 < i < |names| ==> Less(names[0], names[i])
    requires j < |NamesEntries(kind, names[1..], get)|
    ensures var e := NamesEntries(kind, names[1..], get)[j];
      e.kind == kind && Less(names[0], e.name)
  {
    var e := NamesEntries(kind, names[1..], get)[j];
    NamesEntriesExact(kind, names[1..], get, e);
    var k :| 0 <= k < |names[1..]| && names[1..][k] == e.name;
    assert names[k + 1] == e.name;
  }

  lemma EntriesExact(s: Snapshot, e: Entry)
    requires WellFormed(s)
    ensures e in Entries(s) <==> Holds(e, s)
  {
    SortDistinct(s.configMapNames);
    SortDistinct(s.secretNames);
    NamesEntriesExact(ConfigMapKind, Sort(s.configMapNames), s.configMap, e);
    NamesEntriesExact(SecretKind, Sort(s.secretNames), s.secret, e);
  }

  lemma EntriesIncreasing(s: Snapshot)
    requires WellFormed(s)
    ensures Increasing(Entries(s))
  {
    SortDistinct(s.configMapNames);
    SortDistinct(s.secretNames);
    var a := NamesEntries(ConfigMapKind, Sort(s.configMapNames), s.configMap);
    var b := NamesEntries(SecretKind, Sort(s.secretNames), s.secret);
    forall n | n in Sort(s.configMapNames) && s.configMap(n).Found?
      ensures s.configMap(n).content.data.Keys !! s.configMap(n).content.binaryData.Keys
    {
      assert n in s.Names(ConfigMapKind) && s.Get(ConfigMapKind)(n).Found?;
    }
    forall n | n in Sort(s.secretNames) && s.secret(n).Found?
      ensures s.secret(n).content.data.Keys !! s.secret(n).content.binaryData.Keys
    {
      assert n in s.Names(SecretKind) && s.Get(SecretKind)(n).Found?;
    }
    NamesEntriesIncreasing(ConfigMapKind, Sort(s.configMapNames), s.configMap);
    NamesEntriesIncreasing(SecretKind, Sort(s.secretNames), s.secret);
    forall i | 0 <= i < |a| ensures a[i].kind == ConfigMapKind {
      NamesEntriesExact(ConfigMapKind, Sort(s.configMapNames), s.configMap, a[i]);
    }
    forall i | 0 <= i < |b| ensures b[i].kind == SecretKind {
      NamesEntriesExact(SecretKind, Sort(s.secretNames), s.secret, b[i]);
    }
  }

  /**
   The stream identifies the referenced data: two snapshots write the same bytes exactly
   when they hold the same value under every kind, name and key, whatever order their
   specs list the references in.
   */
  lemma StreamIdentifiesContent(s: Snapshot, t: Snapshot)
    requires WellFormed(s) && WellFormed(t) && Separable(s) && Separable(t)
    ensures Stream(s) == Stream(t) <==> forall e :: Holds(e, s) <==> Holds(e, t)
  {
    forall e ensures (e in Entries(s) <==> Holds(e, s)) && (e in Entries(t) <==> Holds(e, t)) {
      EntriesExact(s, e);
      EntriesExact(t, e);
    }
    if Stream(s) == Stream(t) {
      forall i | 0 <= i < |Entries(s)| ensures Clean(Entries(s)[i]) { assert Entries(s)[i] in Entries(s); }
      forall i | 0 <= i < |Entries(t)| ensures Clean(Entries(t)[i]) { assert Entries(t)[i] in Entries(t); }
      ConcatInjective(Entries(s), Entries(t));
    } else if forall e :: Holds(e, s) <==> Holds(e, t) {
      EntriesIncreasing(s);
      EntriesIncreasing(t);
      IncreasingUnique(Entries(s), Entries(t));
    }
  }

  /** A value that goes on to spell out the record of another key. */
  function Spelled(name: string, key: string, x: string, y: string): string {
    x + [NUL] + Body(Entry(ConfigMapKind, name, key, y))
  }

  lemma SpelledRecord(name: string, k: string, l: string, x: string, y: string)
    ensures Concat([Entry(ConfigMapKind, name, k, Spelled(name, l, x, y))])
      == Concat([Entry(ConfigMapKind, name, k, x), Entry(ConfigMapKind, name, l, y)])
  {
    var one := Entry(ConfigMapKind, name, k, Spelled(name, l, x, y));
    var e, f := Entry(ConfigMapKind, name, k, x), Entry(ConfigMapKind, name, l, y);
    ConcatOne(one);
    ConcatOne(f);
    assert [e, f][1..] == [f];
    assert Body(one) == Body(e) + [NUL] + Body(f);
    assert Record(one) == Body(one) + [NUL] && Record(e) == Body(e) + [NUL] && Record(f) == Body(f) + [NUL];
  }

  lemma ConcatOne(e: Entry)
    ensures Concat([e]) == Record(e)
  {
    assert [e][1..] == [];
  }

  /** A cluster in which the one referenced ConfigMap holds this text data. */
  function OneConfigMap(name: string, data: map<string, string>): Snapshot {
    Snapshot([name], [], n => Found(Object(data, map[])), n => NotFound)
  }

  lemma OneConfigMapHolds(name: string, data: map<string, string>, e: Entry)
    ensures WellFormed(OneConfigMap(name, data))
    ensures Holds(e, OneConfigMap(name, data))
      <==> e.kind == ConfigMapKind && e.name == name && e.key in data && data[e.key] == e.value
  {
    assert Object(data, map[]).Values() == data;
  }

  /** An increasing list of exactly the held entries is what is written. */
  lemma StreamIs(s: Snapshot, es: seq<Entry>)
    requires WellFormed(s) && Increasing(es) && forall e :: e in es <==> Holds(e, s)
    ensures Stream(s) == Concat(es)
  {
    EntriesIncreasing(s);
    forall e ensures e in Entries(s) <==> e in es {
      EntriesExact(s, e);
    }
    IncreasingUnique(Entries(s), es);
  }

  lemma OneKeyStream(name: string, k: string, v: string)
    ensures Stream(OneConfigMap(name, map[k := v])) == Concat([Entry(ConfigMapKind, name, k, v)])
  {
    forall e ensures e in [Entry(ConfigMapKind, name, k, v)] <==> Holds(e, OneConfigMap(name, map[k := v])) {
      OneConfigMapHolds(name, map[k := v], e);
    }
    OneConfigMapHolds(name, map[k := v], Entry(ConfigMapKind, name, k, v));
    StreamIs(OneConfigMap(name, map[k := v]), [Entry(ConfigMapKind, name, k, v)]);
  }

  lemma TwoKeyStream(name: string, k: string, l: string, x: string, y: string)
    requires Less(k, l) && k != l
    ensures Stream(OneConfigMap(name, map[k := x, l := y]))
      == Concat([Entry(ConfigMapKind, name, k, x), Entry(ConfigMapKind, name, l, y)])
  {
    var data := map[k := x, l := y];
    var es := [Entry(ConfigMapKind, name, k, x), Entry(ConfigMapKind, name, l, y)];
    forall e ensures e in es <==> Holds(e, OneConfigMap(name, data)) {
      OneConfigMapHolds(name, data, e);
    }
    OneConfigMapHolds(name, data, es[0]);
    StreamIs(OneConfigMap(name, data), es);
  }

  /**
   The NUL condition cannot be dropped: whatever the names and values, a cluster with two keys
   and one with a single key whose value spells out the second record give the same bytes.
   */
  lemma NulBytesCollide(name: string, k: string, l: string, x: string, y: string)
    requires Less(k, l)
    ensures var s, t := OneConfigMap(name, map[k := Spelled(name, l, x, y)]), OneConfigMap(name, map[k := x, l := y]);
      && WellFormed(s) && WellFormed(t) && Stream(s) == Stream(t)
      && Holds(Entry(ConfigMapKind, name, l, y), t) && !Holds(Entry(ConfigMapKind, name, l, y), s)
  {
    LessAsymmetric(k, l);
    OneKeyStream(name, k, Spelled(name, l, x, y));
    TwoKeyStream(name, k, l, x, y);
    SpelledRecord(name, k, l, x, y);
    OneConfigMapHolds(name, map[k := Spelled(name, l, x, y)], Entry(ConfigMapKind, name, l, y));
    OneConfigMapHolds(name, map[k := x, l := y], Entry(ConfigMapKind, name, l, y));
  }
}
