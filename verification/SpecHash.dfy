/**
 From a spec to the hashed bytes: the extractors feed the serializer, so the bytes depend
 only on which objects the spec refers to and on what the cluster holds under those names.
 */
module SpecHash {
  import opened Strings
  import opened References
  import H = ConfigHash

  datatype Cluster = Cluster(configMap: string -> H.Read, secret: string -> H.Read)

  /** The snapshot a reconcile of this spec takes. */
  ghost predicate Taken(s: Spec, c: Cluster, snapshot: H.Snapshot) {
    && ListsConfigMaps(s, snapshot.configMapNames) && ListsPodSecrets(s, snapshot.secretNames)
    && snapshot.configMap == c.configMap && snapshot.secret == c.secret
  }

  /** computeConfigHash from the spec on. */
  method HashSpec(s: Spec, c: Cluster, sha: string -> string) returns (h: H.Hash, written: string, snapshot: H.Snapshot)
    ensures Taken(s, c, snapshot)
    ensures h != H.HashError ==> written == H.Stream(snapshot)
    ensures h == H.HashError || h == H.NoHash || h == H.Digest(sha(written))
  {
    var configMaps := ExtractConfigMapNames(s);
    var secrets := ExtractPodSecretNames(s);
    snapshot := H.Snapshot(configMaps, secrets, c.configMap, c.secret);
    h, written := H.ComputeConfigHash(snapshot, sha);
  }

  ghost predicate SameReferences(s: Spec, t: Spec) {
    && (forall n :: RefersToConfigMap(s, n) <==> RefersToConfigMap(t, n))
    && (forall n :: PodRefersToSecret(s, n) <==> PodRefersToSecret(t, n))
  }

  lemma SameNamesSortAlike(a: seq<string>, b: seq<string>)
    requires Distinct(a) && Distinct(b) && forall n :: n in a <==> n in b
    ensures Sort(a) == Sort(b)
  {
    DistinctCount(a);
    DistinctCount(b);
    forall n ensures multiset(a)[n] == multiset(b)[n] {
      assert n in multiset(a) <==> n in a;
      assert n in multiset(b) <==> n in b;
    }
    assert multiset(a) == multiset(b);
    SortPermutation(a, b);
  }

  /** The order of storage, envFrom and env, repeats and optional flags leave no trace in the bytes. */
  lemma SameReferencesSameStream(s: Spec, t: Spec, c: Cluster, a: H.Snapshot, b: H.Snapshot)
    requires Taken(s, c, a) && Taken(t, c, b) && SameReferences(s, t)
    ensures H.Stream(a) == H.Stream(b)
  {
    SameNamesSortAlike(a.configMapNames, b.configMapNames);
    SameNamesSortAlike(a.secretNames, b.secretNames);
  }

  /** The value the cluster holds under a key of an object the spec refers to. */
  ghost predicate Refers(s: Spec, c: Cluster, e: H.Entry) {
    && (if e.kind == H.ConfigMapKind then RefersToConfigMap(s, e.name) else PodRefersToSecret(s, e.name))
    && H.Contributes(e.kind, e.name, if e.kind == H.ConfigMapKind then c.configMap(e.name) else c.secret(e.name), e)
  }

  /** An object's text and binary keys are disjoint, as the API server enforces. */
  ghost predicate DisjointKeys(c: Cluster) {
    && (forall n :: c.configMap(n).Found? ==> Disjoint(c.configMap(n).content))
    && (forall n :: c.secret(n).Found? ==> Disjoint(c.secret(n).content))
  }

  ghost predicate Disjoint(o: H.Object) {
    o.data.Keys !! o.binaryData.Keys
  }

  lemma TakenHolds(s: Spec, c: Cluster, a: H.Snapshot, e: H.Entry)
    requires Taken(s, c, a)
    ensures H.Holds(e, a) <==> Refers(s, c, e)
  {
  }

  /**
   Two reconciles, of any two specs on any two states of the cluster, hash the same bytes if
   and only if the data their specs refer to is the same. The extractors supply distinct names.
   */
  lemma SpecStreamIdentifiesContent(s: Spec, c: Cluster, a: H.Snapshot, t: Spec, d: Cluster, b: H.Snapshot)
    requires Taken(s, c, a) && Taken(t, d, b) && DisjointKeys(c) && DisjointKeys(d)
    requires forall e :: Refers(s, c, e) ==> H.Clean(e)
    requires forall e :: Refers(t, d, e) ==> H.Clean(e)
    ensures H.Stream(a) == H.Stream(b) <==> forall e :: Refers(s, c, e) <==> Refers(t, d, e)
  {
    forall e ensures (H.Holds(e, a) <==> Refers(s, c, e)) && (H.Holds(e, b) <==> Refers(t, d, e)) {
      TakenHolds(s, c, a, e);
      TakenHolds(t, d, b, e);
    }
    TakenWellFormed(s, c, a);
    TakenWellFormed(t, d, b);
    H.StreamIdentifiesContent(a, b);
  }

  lemma TakenWellFormed(s: Spec, c: Cluster, a: H.Snapshot)
    requires Taken(s, c, a) && DisjointKeys(c)
    ensures H.WellFormed(a)
  {
    forall kind, n | n in a.Names(kind) && a.Get(kind)(n).Found?
      ensures Disjoint(a.Get(kind)(n).content)
    {
      assert kind == H.ConfigMapKind ==> a.Get(kind)(n) == c.configMap(n);
      assert kind == H.SecretKind ==> a.Get(kind)(n) == c.secret(n);
    }
  }
}
