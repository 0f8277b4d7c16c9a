/**
 User-supplied labels and annotations merged into managed objects. What was applied last
 time is tracked in two annotations holding JSON, so that it can be removed when the spec
 changes. JSON is kept abstract: decoding undoes encoding, and other text may not decode.
 */
module CustomMetadata {
  import opened Wrappers

  /** Labels the operator owns, against all others. */
  datatype LabelKey = App | McpServer | Label(text: string)
  /** Annotations under mcp.x-k8s.io/ (two of them track extras), against all others. */
  datatype AnnotationKey = ManagedExtraLabels | ManagedExtraAnnotations | Reserved(text: string)
    | Annotation(text: string)

  type Labels = map<LabelKey, string>
  type Annotations = map<AnnotationKey, string>

  datatype Codec = Codec(
    encodeLabels: Labels -> string,
    decodeLabels: string -> Option<Labels>,
    encodeAnnotations: Annotations -> string,
    decodeAnnotations: string -> Option<Annotations>)

  ghost predicate Faithful(c: Codec) {
    && (forall m: Labels :: c.decodeLabels(c.encodeLabels(m)) == Some(m))
    && (forall m: Annotations :: c.decodeAnnotations(c.encodeAnnotations(m)) == Some(m))
  }

  /** The extras of a spec; a nil map is None, which is not tracked. */
  datatype Extras = Extras(labels: Option<Labels>, annotations: Option<Annotations>)

  datatype Meta = Meta(labels: Labels, annotations: Annotations)

  const TRACKING := {ManagedExtraLabels, ManagedExtraAnnotations}

  // ---- Filters ----

  function EffectiveLabels(x: Extras): Labels {
    match x.labels
    case None => map[]
    case Some(m) => map k | k in m && k.Label? :: m[k]
  }

  function EffectiveAnnotations(x: Extras): Annotations {
    match x.annotations
    case None => map[]
    case Some(m) => map k | k in m && k.Annotation? :: m[k]
  }

  /** filterReservedKeys: copy all but the reserved keys. */
  method FilterReservedKeys(m: Labels) returns (filtered: Labels)
    ensures filtered == EffectiveLabels(Extras(Some(m), None))
  {
    filtered := map[];
    var left := m.Keys;
    while left != {}
      invariant left <= m.Keys
      invariant filtered == map k | k in m && k !in left && k.Label? :: m[k]
      decreases left
    {
      var k :| k in left;
      if k.Label? {
        filtered := filtered[k := m[k]];
      }
      left := left - {k};
    }
  }

  // ---- Specification of the merge ----

  /** What the tracking annotations say was applied; None when the text does not decode. */
  function TrackedLabels(annotations: Annotations, c: Codec): Option<Labels> {
    if ManagedExtraLabels in annotations then c.decodeLabels(annotations[ManagedExtraLabels]) else Some(map[])
  }

  function TrackedAnnotations(annotations: Annotations, c: Codec): Option<Annotations> {
    if ManagedExtraAnnotations in annotations then c.decodeAnnotations(annotations[ManagedExtraAnnotations])
      else Some(map[])
  }

  /** Stage one: forget the tracked labels when they differ from the wanted ones. */
  function DropLabels(o: Meta, tracked: Labels, x: Extras): Meta {
    if EffectiveLabels(x) == tracked then o
    else Meta(o.labels - tracked.Keys, o.annotations - {ManagedExtraLabels})
  }

  function DropAnnotations(o: Meta, tracked: Annotations, x: Extras): Meta {
    if EffectiveAnnotations(x) == tracked then o
    else o.(annotations := o.annotations - tracked.Keys - {ManagedExtraAnnotations})
  }

  /** Stage two: overlay what is wanted and record it. */
  function Overlay(o: Meta, x: Extras, c: Codec): Meta {
    var a0 := o.annotations + EffectiveAnnotations(x);
    var a1 := if x.labels.Some? then a0[ManagedExtraLabels := c.encodeLabels(EffectiveLabels(x))] else a0;
    var a2 := if x.annotations.Some? then a1[ManagedExtraAnnotations := c.encodeAnnotations(EffectiveAnnotations(x))]
      else a1;
    Meta(o.labels + EffectiveLabels(x), a2)
  }

  /** Nothing tracked and nothing wanted. */
  predicate Idle(oldLabels: Labels, oldAnnotations: Annotations, x: Extras) {
    && EffectiveLabels(x) == map[] && EffectiveAnnotations(x) == map[]
    && oldLabels == map[] && oldAnnotations == map[]
  }

  function Applied(o: Meta, x: Extras, c: Codec): Option<Meta> {
    var oldLabels := TrackedLabels(o.annotations, c);
    if oldLabels.None? then None
    else
      var o1 := DropLabels(o, oldLabels.value, x);
      var oldAnnotations := TrackedAnnotations(o1.annotations, c);
      if oldAnnotations.None? then None
      else
        var o2 := DropAnnotations(o1, oldAnnotations.value, x);
        if Idle(oldLabels.value, oldAnnotations.value, x) then Some(o2) else Some(Overlay(o2, x, c))
  }

  /** The metadata of a live object, edited in place. */
  class ObjectMeta {
    var labels: Labels
    var annotations: Annotations

    constructor (o: Meta)
      ensures labels == o.labels && annotations == o.annotations
    {
      labels, annotations := o.labels, o.annotations;
    }

    function Value(): Meta
      reads this
    {
      Meta(labels, annotations)
    }

    /** Read the tracked labels and remove them when they are no longer the wanted ones. */
    method ForgetLabels(x: Extras, c: Codec) returns (current: Option<Labels>)
      modifies this
      ensures current == TrackedLabels(old(annotations), c)
      ensures Value() == if current.Some? then DropLabels(old(Value()), current.value, x) else old(Value())
    {
      current := Some(map[]);
      if ManagedExtraLabels in annotations {
        current := c.decodeLabels(annotations[ManagedExtraLabels]);
        if current.None? {
          return;
        }
      }
      if EffectiveLabels(x) != current.value {
        labels := labels - current.value.Keys;
        annotations := annotations - {ManagedExtraLabels};
      }
    }

    method ForgetAnnotations(x: Extras, c: Codec) returns (current: Option<Annotations>)
      modifies this
      ensures current == TrackedAnnotations(old(annotations), c)
      ensures Value() == if current.Some? then DropAnnotations(old(Value()), current.value, x) else old(Value())
    {
      current := Some(map[]);
      if ManagedExtraAnnotations in annotations {
        current := c.decodeAnnotations(annotations[ManagedExtraAnnotations]);
        if current.None? {
          return;
        }
      }
      if EffectiveAnnotations(x) != current.value {
        annotations := annotations - current.value.Keys;
        annotations := annotations - {ManagedExtraAnnotations};
      }
    }

    /** Add what is wanted and record it; a nil map is not recorded. */
    method AddAndRecord(x: Extras, c: Codec)
      modifies this
      ensures Value() == Overlay(old(Value()), x, c)
    {
      labels := labels + EffectiveLabels(x);
      annotations := annotations + EffectiveAnnotations(x);
      if x.labels.Some? {
        annotations := annotations[ManagedExtraLabels := c.encodeLabels(EffectiveLabels(x))];
      }
      if x.annotations.Some? {
        annotations := annotations[ManagedExtraAnnotations := c.encodeAnnotations(EffectiveAnnotations(x))];
      }
    }

    /** applyCustomObjectMetadata. On a decoding error nothing has been added. */
    method ApplyCustomObjectMetadata(x: Extras, c: Codec) returns (ok: bool)
      modifies this
      ensures ok <==> Applied(old(Value()), x, c).Some?
      ensures ok ==> Value() == Applied(old(Value()), x, c).value
      ensures !ok ==> labels.Keys <= old(labels.Keys) && annotations.Keys <= old(annotations.Keys)
    {
      var currentLabels := ForgetLabels(x, c);
      if currentLabels.None? {
        return false;
      }
      var currentAnnotations := ForgetAnnotations(x, c);
      if currentAnnotations.None? {
        return false;
      }
      if Idle(currentLabels.value, currentAnnotations.value, x) {
        return true;
      }
      AddAndRecord(x, c);
      return true;
    }
  }

  /** What becomes of a pod template map when the tracked extras give way to the wanted ones. */
  function Template<K, V(==)>(m: map<K, V>, tracked: map<K, V>, wanted: map<K, V>): map<K, V> {
    (if wanted == tracked then m else m - tracked.Keys) + wanted
  }

  datatype Deployed = Deployed(meta: Meta, templateLabels: Labels, templateAnnotations: Annotations)

  /** Undecodable tracking text counts as nothing for the template, where the object reports an error. */
  function OrEmpty<K, V>(m: Option<map<K, V>>): map<K, V> {
    if m.Some? then m.value else map[]
  }

  function AppliedDeployment(d: Deployed, x: Extras, c: Codec): Option<Deployed> {
    var meta := Applied(d.meta, x, c);
    if meta.None? then None
    else Some(Deployed(
      meta.value,
      Template(d.templateLabels, OrEmpty(TrackedLabels(d.meta.annotations, c)), EffectiveLabels(x)),
      Template(d.templateAnnotations, OrEmpty(TrackedAnnotations(d.meta.annotations, c)), EffectiveAnnotations(x))))
  }

  /** A Deployment also carries the extras on its pod template. */
  class Deployment {
    const meta: ObjectMeta
    var templateLabels: Labels
    var templateAnnotations: Annotations

    constructor (meta: ObjectMeta, templateLabels: Labels, templateAnnotations: Annotations)
      ensures this.meta == meta
      ensures this.templateLabels == templateLabels && this.templateAnnotations == templateAnnotations
    {
      this.meta, this.templateLabels, this.templateAnnotations := meta, templateLabels, templateAnnotations;
    }

    function View(): Deployed
      reads this, meta
    {
      Deployed(meta.Value(), templateLabels, templateAnnotations)
    }

    /** applyCustomDeploymentMetadata: the tracked extras are read before the object is rewritten. */
    method ApplyCustomDeploymentMetadata(x: Extras, c: Codec) returns (ok: bool)
      modifies this, meta
      ensures ok <==> AppliedDeployment(old(View()), x, c).Some?
      ensures ok ==> View() == AppliedDeployment(old(View()), x, c).value
      ensures !ok ==> templateLabels == old(templateLabels) && templateAnnotations == old(templateAnnotations)
    {
      var oldLabels := OrEmpty(TrackedLabels(meta.annotations, c));
      var oldAnnotations := OrEmpty(TrackedAnnotations(meta.annotations, c));
      ok := meta.ApplyCustomObjectMetadata(x, c);
      if !ok {
        return;
      }
      if EffectiveLabels(x) != oldLabels {
        templateLabels := templateLabels - oldLabels.Keys;
      }
      templateLabels := templateLabels + EffectiveLabels(x);
      if EffectiveAnnotations(x) != oldAnnotations {
        templateAnnotations := templateAnnotations - oldAnnotations.Keys;
      }
      templateAnnotations := templateAnnotations + EffectiveAnnotations(x);
    }
  }

  // ---- Change detection ----

  /** A tracked key is absent from the object or from one of the extra maps. */
  ghost predicate SomeMissing<K>(keys: set<K>, present: set<K>, extra: seq<set<K>>) {
    exists k :: k in keys && (k !in present || exists i :: 0 <= i < |extra| && k !in extra[i])
  }

  /** The loops of the change detectors: every tracked key must be present everywhere. */
  method AnyMissing<K(==)>(keys: set<K>, present: set<K>, extra: seq<set<K>>) returns (missing: bool)
    ensures missing <==> SomeMissing(keys, present, extra)
  {
    var left := keys;
    while left != {}
      invariant left <= keys
      invariant forall k :: k in keys - left ==> k in present && forall i :: 0 <= i < |extra| ==> k in extra[i]
      decreases left
    {
      var k :| k in left;
      if k !in present {
        return true;
      }
      for i := 0 to |extra|
        invariant forall j :: 0 <= j < i ==> k in extra[j]
      {
        if k !in extra[i] {
          return true;
        }
      }
      left := left - {k};
    }
    return false;
  }

  /** objectLabelsChanged, with the label sets of nested templates as extra. */
  method LabelsChanged(o: Meta, x: Extras, c: Codec, extra: seq<set<LabelKey>>) returns (changed: bool)
    ensures changed <==>
      var tracked := TrackedLabels(o.annotations, c);
      tracked.None? || tracked.value != EffectiveLabels(x) || SomeMissing(tracked.value.Keys, o.labels.Keys, extra)
  {
    var effective := EffectiveLabels(x);
    var current: Labels := map[];
    if ManagedExtraLabels in o.annotations {
      var decoded := c.decodeLabels(o.annotations[ManagedExtraLabels]);
      if decoded.None? {
        return true;
      }
      current := decoded.value;
      if current != map[] {
        if effective != map[] && current != effective {
          return true;
        }
        if effective == map[] {
          return true;
        }
        var missing := AnyMissing(current.Keys, o.labels.Keys, extra);
        if missing {
          return true;
        }
      }
    }
    return current == map[] && effective != map[];
  }

  method AnnotationsChanged(o: Meta, x: Extras, c: Codec, extra: seq<set<AnnotationKey>>) returns (changed: bool)
    ensures changed <==>
      var tracked := TrackedAnnotations(o.annotations, c);
      tracked.None? || tracked.value != EffectiveAnnotations(x)
        || SomeMissing(tracked.value.Keys, o.annotations.Keys, extra)
  {
    var effective := EffectiveAnnotations(x);
    var current: Annotations := map[];
    if ManagedExtraAnnotations in o.annotations {
      var decoded := c.decodeAnnotations(o.annotations[ManagedExtraAnnotations]);
      if decoded.None? {
        return true;
      }
      current := decoded.value;
      if current != map[] {
        if effective != map[] && current != effective {
          return true;
        }
        if effective == map[] {
          return true;
        }
        var missing := AnyMissing(current.Keys, o.annotations.Keys, extra);
        if missing {
          return true;
        }
      }
    }
    return current == map[] && effective != map[];
  }

  // ---- Histories of spec changes ----

  function Run(o: Meta, history: seq<Extras>, c: Codec): Option<Meta> {
    if history == [] then Some(o)
    else
      var before := Run(o, history[..|history| - 1], c);
      if before.None? then None else Applied(before.value, history[|history| - 1], c)
  }

  /** Every key some spec of the history asked for. */
  function AskedLabels(history: seq<Extras>): set<LabelKey> {
    if history == [] then {}
    else AskedLabels(history[..|history| - 1]) + EffectiveLabels(history[|history| - 1]).Keys
  }

  function AskedAnnotations(history: seq<Extras>): set<AnnotationKey> {
    if history == [] then {}
    else AskedAnnotations(history[..|history| - 1]) + EffectiveAnnotations(history[|history| - 1]).Keys
  }

  const NO_EXTRAS := Extras(None, None)

  function Last(history: seq<Extras>): Extras {
    if history == [] then NO_EXTRAS else history[|history| - 1]
  }

  /** The state reached from an untracked original by a history of specs. */
  ghost predicate Reached(original: Meta, history: seq<Extras>, o: Meta, c: Codec) {
    && o.labels == original.labels - AskedLabels(history) + EffectiveLabels(Last(history))
    && Plain(o.annotations) == original.annotations - AskedAnnotations(history) + EffectiveAnnotations(Last(history))
    && TrackedLabels(o.annotations, c) == Some(EffectiveLabels(Last(history)))
    && TrackedAnnotations(o.annotations, c) == Some(EffectiveAnnotations(Last(history)))
  }

  lemma LastAsked(history: seq<Extras>)
    ensures EffectiveLabels(Last(history)).Keys <= AskedLabels(history)
    ensures EffectiveAnnotations(Last(history)).Keys <= AskedAnnotations(history)
  {
  }

  /** Replacing one overlay by another: what lies below both is untouched. */
  lemma OverlaySwap<K, V>(base: map<K, V>, asked: set<K>, was: map<K, V>, now: map<K, V>)
    requires was.Keys <= asked
    ensures (base - asked + was) - was.Keys + now == base - (asked + now.Keys) + now
    ensures (base - asked + was) + was == base - (asked + was.Keys) + was
  {
    assert asked + was.Keys == asked;
  }

  /** The annotations a user sees: all but the tracking ones. */
  function Plain(m: Annotations): Annotations { m - TRACKING }

  lemma OverlayPlain(o: Meta, x: Extras, c: Codec)
    ensures Plain(Overlay(o, x, c).annotations) == Plain(o.annotations) + EffectiveAnnotations(x)
  {
    assert EffectiveAnnotations(x).Keys !! TRACKING;
  }

  lemma DropPlain(o: Meta, wasLabels: Labels, was: Annotations, x: Extras)
    requires was.Keys !! TRACKING
    ensures Plain(DropAnnotations(DropLabels(o, wasLabels, x), was, x).annotations) ==
      if EffectiveAnnotations(x) == was then Plain(o.annotations) else Plain(o.annotations) - was.Keys
  {
    var o1 := DropLabels(o, wasLabels, x);
    assert Plain(o1.annotations) == Plain(o.annotations);
    assert Plain(o1.annotations - was.Keys - {ManagedExtraAnnotations}) == Plain(o1.annotations) - was.Keys;
  }

  lemma TemplateSwap<K, V>(base: map<K, V>, asked: set<K>, was: map<K, V>, now: map<K, V>)
    requires was.Keys <= asked
    ensures Template(base - asked + was, was, now) == base - (asked + now.Keys) + now
  {
    OverlaySwap(base, asked, was, now);
  }

  /** Applying swaps the tracked labels for the wanted ones. */
  lemma AppliedLabels(o: Meta, was: Labels, x: Extras, c: Codec)
    requires TrackedLabels(o.annotations, c) == Some(was) && Applied(o, x, c).Some?
    ensures Applied(o, x, c).value.labels == Template(o.labels, was, EffectiveLabels(x))
  {
    PlusNothing(DropLabels(o, was, x).labels);
  }

  /** One more spec: labels. */
  lemma StepLabels(original: Meta, history: seq<Extras>, o: Meta, x: Extras, c: Codec)
    requires Reached(original, history, o, c) && Applied(o, x, c).Some?
    ensures var o' := Applied(o, x, c).value;
      o'.labels == original.labels - (AskedLabels(history) + EffectiveLabels(x).Keys) + EffectiveLabels(x)
  {
    LastAsked(history);
    AppliedLabels(o, EffectiveLabels(Last(history)), x, c);
    TemplateSwap(original.labels, AskedLabels(history), EffectiveLabels(Last(history)), EffectiveLabels(x));
  }

  lemma AppliedIs(o: Meta, wasLabels: Labels, was: Annotations, x: Extras, c: Codec) returns (o2: Meta)
    requires TrackedLabels(o.annotations, c) == Some(wasLabels) && TrackedAnnotations(o.annotations, c) == Some(was)
    requires was.Keys !! TRACKING
    ensures Plain(o2.annotations) ==
      if EffectiveAnnotations(x) == was then Plain(o.annotations) else Plain(o.annotations) - was.Keys
    ensures Applied(o, x, c).Some?
    ensures Applied(o, x, c).value == Overlay(o2, x, c)
      || (Applied(o, x, c).value == o2 && EffectiveAnnotations(x) == map[])
  {
    DropPlain(o, wasLabels, was, x);
    o2 := DropAnnotations(DropLabels(o, wasLabels, x), was, x);
    assert TrackedAnnotations(DropLabels(o, wasLabels, x).annotations, c) == Some(was);
  }

  /** Seen from the plain annotations, applying swaps the tracked overlay for the wanted one. */
  lemma AppliedPlain(o: Meta, wasLabels: Labels, was: Annotations, x: Extras, c: Codec)
    requires TrackedLabels(o.annotations, c) == Some(wasLabels) && TrackedAnnotations(o.annotations, c) == Some(was)
    requires was.Keys !! TRACKING
    ensures Applied(o, x, c).Some?
    ensures Plain(Applied(o, x, c).value.annotations) ==
      (if EffectiveAnnotations(x) == was then Plain(o.annotations) else Plain(o.annotations) - was.Keys)
        + EffectiveAnnotations(x)
  {
    var o2 := AppliedIs(o, wasLabels, was, x, c);
    OverlayPlain(o2, x, c);
    PlusNothing(Plain(o2.annotations));
  }

  lemma PlusNothing<K, V>(m: map<K, V>)
    ensures m + map[] == m
  {
  }

  /** One more spec: annotations other than the tracking ones. */
  lemma StepAnnotations(original: Meta, history: seq<Extras>, o: Meta, x: Extras, c: Codec)
    requires Reached(original, history, o, c)
    ensures Applied(o, x, c).Some?
    ensures Plain(Applied(o, x, c).value.annotations) ==
      original.annotations - (AskedAnnotations(history) + EffectiveAnnotations(x).Keys) + EffectiveAnnotations(x)
  {
    var was, now := EffectiveAnnotations(Last(history)), EffectiveAnnotations(x);
    LastAsked(history);
    AppliedPlain(o, EffectiveLabels(Last(history)), was, x, c);
    OverlaySwap(original.annotations, AskedAnnotations(history), was, now);
  }

  lemma OverlayTracking(o: Meta, x: Extras, c: Codec)
    requires Faithful(c)
    ensures var a := Overlay(o, x, c).annotations;
      && TrackedLabels(a, c) == (if x.labels.Some? then Some(EffectiveLabels(x)) else TrackedLabels(o.annotations, c))
      && TrackedAnnotations(a, c)
         == (if x.annotations.Some? then Some(EffectiveAnnotations(x)) else TrackedAnnotations(o.annotations, c))
  {
  }

  lemma DropTracking(o: Meta, was: Labels, wasAnnotations: Annotations, x: Extras, c: Codec)
    requires TrackedLabels(o.annotations, c) == Some(was)
      && TrackedAnnotations(o.annotations, c) == Some(wasAnnotations)
    requires wasAnnotations.Keys !! TRACKING
    ensures var a := DropAnnotations(DropLabels(o, was, x), wasAnnotations, x).annotations;
      && TrackedLabels(a, c) == Some(if EffectiveLabels(x) == was then was else map[])
      && TrackedAnnotations(a, c) == Some(if EffectiveAnnotations(x) == wasAnnotations then wasAnnotations else map[])
  {
    assert TrackedAnnotations(DropLabels(o, was, x).annotations, c) == Some(wasAnnotations);
  }

  /** One more spec: the tracking annotations describe it. */
  lemma StepTracking(o: Meta, x: Extras, c: Codec)
    requires Faithful(c)
    requires TrackedLabels(o.annotations, c).Some? && TrackedAnnotations(o.annotations, c).Some?
    requires TrackedAnnotations(o.annotations, c).value.Keys !! TRACKING
    ensures Applied(o, x, c).Some?
    ensures TrackedLabels(Applied(o, x, c).value.annotations, c) == Some(EffectiveLabels(x))
    ensures TrackedAnnotations(Applied(o, x, c).value.annotations, c) == Some(EffectiveAnnotations(x))
  {
    var was, wasAnnotations := TrackedLabels(o.annotations, c).value, TrackedAnnotations(o.annotations, c).value;
    DropTracking(o, was, wasAnnotations, x, c);
    OverlayTracking(DropAnnotations(DropLabels(o, was, x), wasAnnotations, x), x, c);
    assert TrackedAnnotations(DropLabels(o, was, x).annotations, c) == Some(wasAnnotations);
  }

  /** Any history of specs applied to an object without tracking annotations succeeds and is described by Reached. */
  lemma {:induction false} HistoryReached(original: Meta, history: seq<Extras>, c: Codec)
    requires Faithful(c) && original.annotations.Keys !! TRACKING
    ensures Run(original, history, c).Some?
    ensures Reached(original, history, Run(original, history, c).value, c)
  {
    if history == [] {
      assert original.labels - {} + map[] == original.labels;
      assert original.annotations - {} + map[] == original.annotations == Plain(original.annotations);
    } else {
      var before, x := history[..|history| - 1], history[|history| - 1];
      HistoryReached(original, before, c);
      var o := Run(original, before, c).value;
      assert EffectiveAnnotations(Last(before)).Keys !! TRACKING;
      StepTracking(o, x, c);
      StepLabels(original, before, o, x, c);
      StepAnnotations(original, before, o, x, c);
    }
  }

  /**
   Merging does not remember the history exactly when no earlier spec asked for a key the
   original object had and the last spec no longer asks for.
   */
  lemma HistoryIndependent(original: Meta, history: seq<Extras>, c: Codec)
    requires Faithful(c) && original.annotations.Keys !! TRACKING
    ensures Run(original, history, c).Some?
    ensures var o := Run(original, history, c).value;
      var x := Last(history);
      && (o.labels == original.labels + EffectiveLabels(x)
          <==> original.labels.Keys * AskedLabels(history) <= EffectiveLabels(x).Keys)
      && (Plain(o.annotations) == original.annotations + EffectiveAnnotations(x)
          <==> original.annotations.Keys * AskedAnnotations(history) <= EffectiveAnnotations(x).Keys)
  {
    HistoryReached(original, history, c);
    OverlayLoss(original.labels, AskedLabels(history), EffectiveLabels(Last(history)));
    OverlayLoss(original.annotations, AskedAnnotations(history), EffectiveAnnotations(Last(history)));
  }

  function RunDeployment(d: Deployed, history: seq<Extras>, c: Codec): Option<Deployed> {
    if history == [] then Some(d)
    else
      var before := RunDeployment(d, history[..|history| - 1], c);
      if before.None? then None else AppliedDeployment(before.value, history[|history| - 1], c)
  }

  /** The object's metadata follows its own history, and the pod template the same formula. */
  lemma {:induction false} DeploymentReached(d: Deployed, history: seq<Extras>, c: Codec)
    requires Faithful(c) && d.meta.annotations.Keys !! TRACKING
    ensures Run(d.meta, history, c).Some? && RunDeployment(d, history, c).Some?
    ensures var r := RunDeployment(d, history, c).value;
      && r.meta == Run(d.meta, history, c).value
      && r.templateLabels == d.templateLabels - AskedLabels(history) + EffectiveLabels(Last(history))
      && r.templateAnnotations
        == d.templateAnnotations - AskedAnnotations(history) + EffectiveAnnotations(Last(history))
  {
    HistoryReached(d.meta, history, c);
    if history == [] {
      assert d.templateLabels - {} + map[] == d.templateLabels;
      assert d.templateAnnotations - {} + map[] == d.templateAnnotations;
    } else {
      var before, x := history[..|history| - 1], history[|history| - 1];
      DeploymentReached(d, before, c);
      HistoryReached(d.meta, before, c);
      LastAsked(before);
      TemplateSwap(d.templateLabels, AskedLabels(before), EffectiveLabels(Last(before)), EffectiveLabels(x));
      TemplateSwap(
        d.templateAnnotations, AskedAnnotations(before), EffectiveAnnotations(Last(before)), EffectiveAnnotations(x));
    }
  }

  /** The pod template, too, forgets every history but the last, under the same condition on its original keys. */
  lemma TemplateHistoryIndependent(d: Deployed, history: seq<Extras>, c: Codec)
    requires Faithful(c) && d.meta.annotations.Keys !! TRACKING
    ensures RunDeployment(d, history, c).Some?
    ensures var r := RunDeployment(d, history, c).value;
      var x := Last(history);
      && (r.templateLabels == d.templateLabels + EffectiveLabels(x)
          <==> d.templateLabels.Keys * AskedLabels(history) <= EffectiveLabels(x).Keys)
      && (r.templateAnnotations == d.templateAnnotations + EffectiveAnnotations(x)
          <==> d.templateAnnotations.Keys * AskedAnnotations(history) <= EffectiveAnnotations(x).Keys)
  {
    DeploymentReached(d, history, c);
    OverlayLoss(d.templateLabels, AskedLabels(history), EffectiveLabels(Last(history)));
    OverlayLoss(d.templateAnnotations, AskedAnnotations(history), EffectiveAnnotations(Last(history)));
  }

  lemma OverlayLoss<K, V>(base: map<K, V>, asked: set<K>, now: map<K, V>)
    ensures base - asked + now == base + now <==> base.Keys * asked <= now.Keys
  {
    if !(base.Keys * asked <= now.Keys) {
      var k :| k in base.Keys * asked && k !in now.Keys;
      assert k in base + now && k !in base - asked + now;
    } else {
      assert (base - asked + now).Keys == (base + now).Keys;
    }
  }

  /** The operator's own labels and annotations survive every history unchanged. */
  lemma ReservedUntouched(original: Meta, history: seq<Extras>, c: Codec)
    requires Faithful(c) && original.annotations.Keys !! TRACKING
    ensures Run(original, history, c).Some?
    ensures var o := Run(original, history, c).value;
      && (forall k: LabelKey :: !k.Label? ==>
        (k in o.labels <==> k in original.labels) && (k in o.labels ==> o.labels[k] == original.labels[k]))
      && (forall k: AnnotationKey :: k.Reserved? ==>
            (k in o.annotations <==> k in original.annotations)
              && (k in o.annotations ==> o.annotations[k] == original.annotations[k]))
  {
    HistoryReached(original, history, c);
    AskedPlain(history);
    var o := Run(original, history, c).value;
    forall k: AnnotationKey | k.Reserved?
      ensures (k in o.annotations <==> k in original.annotations)
        && (k in o.annotations ==> o.annotations[k] == original.annotations[k])
    {
      assert k in o.annotations <==> k in Plain(o.annotations);
    }
  }

  lemma {:induction false} AskedPlain(history: seq<Extras>)
    ensures forall k :: k in AskedLabels(history) ==> k.Label?
    ensures forall k :: k in AskedAnnotations(history) ==> k.Annotation?
  {
    if history != [] {
      AskedPlain(history[..|history| - 1]);
    }
  }

  /** Right after an apply nothing is missing, so both detectors answer no. */
  lemma NothingMissing(original: Meta, history: seq<Extras>, c: Codec)
    requires Faithful(c) && original.annotations.Keys !! TRACKING
    ensures Run(original, history, c).Some?
    ensures var o := Run(original, history, c).value;
      && TrackedLabels(o.annotations, c) == Some(EffectiveLabels(Last(history)))
      && TrackedAnnotations(o.annotations, c) == Some(EffectiveAnnotations(Last(history)))
      && !SomeMissing(EffectiveLabels(Last(history)).Keys, o.labels.Keys, [])
      && !SomeMissing(EffectiveAnnotations(Last(history)).Keys, o.annotations.Keys, [])
  {
    HistoryReached(original, history, c);
    var o := Run(original, history, c).value;
    forall k | k in EffectiveAnnotations(Last(history)) ensures k in o.annotations {
      assert k in Plain(o.annotations);
    }
  }

  lemma NotMissingInTemplate<K>(keys: set<K>, present: set<K>, template: set<K>)
    requires !SomeMissing(keys, present, []) && keys <= template
    ensures !SomeMissing(keys, present, [template])
  {
    forall k | k in keys ensures k in present {
      assert k in present || SomeMissing(keys, present, []);
    }
  }

  /** What a Deployment holds right after an apply leaves nothing for the detectors to report. */
  lemma DeploymentNothingMissing(d: Deployed, history: seq<Extras>, x: Extras, c: Codec)
    requires Faithful(c) && d.meta.annotations.Keys !! TRACKING
    ensures RunDeployment(d, history + [x], c).Some?
    ensures var r := RunDeployment(d, history + [x], c).value;
      && TrackedLabels(r.meta.annotations, c) == Some(EffectiveLabels(x))
      && TrackedAnnotations(r.meta.annotations, c) == Some(EffectiveAnnotations(x))
      && !SomeMissing(EffectiveLabels(x).Keys, r.meta.labels.Keys, [r.templateLabels.Keys])
      && !SomeMissing(EffectiveAnnotations(x).Keys, r.meta.annotations.Keys, [r.templateAnnotations.Keys])
  {
    DeploymentReached(d, history + [x], c);
    NothingMissing(d.meta, history + [x], c);
    var r := RunDeployment(d, history + [x], c).value;
    NotMissingInTemplate(EffectiveLabels(x).Keys, r.meta.labels.Keys, r.templateLabels.Keys);
    NotMissingInTemplate(EffectiveAnnotations(x).Keys, r.meta.annotations.Keys, r.templateAnnotations.Keys);
  }

  /** Apply followed by both detectors, on any Deployment a history of specs has led to. */
  method ApplyThenDetect(original: Deployed, history: seq<Extras>, x: Extras, c: Codec)
    returns (labelsChanged: bool, annotationsChanged: bool)
    requires Faithful(c) && original.meta.annotations.Keys !! TRACKING
    ensures !labelsChanged && !annotationsChanged
  {
    DeploymentReached(original, history, c);
    DeploymentNothingMissing(original, history, x, c);
    assert (history + [x])[..|history|] == history;
    var reached := RunDeployment(original, history, c).value;
    var meta := new ObjectMeta(reached.meta);
    var d := new Deployment(meta, reached.templateLabels, reached.templateAnnotations);
    assert d.View() == reached;
    var ok := d.ApplyCustomDeploymentMetadata(x, c);
    assert ok && d.View() == RunDeployment(original, history + [x], c).value;
    labelsChanged := LabelsChanged(meta.Value(), x, c, [d.templateLabels.Keys]);
    annotationsChanged := AnnotationsChanged(meta.Value(), x, c, [d.templateAnnotations.Keys]);
  }

  // ---- The text of the tracking annotations ----

  /** A tracking annotation after a history that ends in x; None when absent. */
  function TextAfter(original: Meta, history: seq<Extras>, x: Extras, key: AnnotationKey, c: Codec): Option<string> {
    var o := Run(original, history + [x], c);
    if o.Some? && key in o.value.annotations then Some(o.value.annotations[key]) else None
  }

  /** The text is the same whatever history led to x. */
  ghost predicate TextDetermined(original: Meta, x: Extras, key: AnnotationKey, c: Codec) {
    forall h1, h2 :: TextAfter(original, h1, x, key, c) == TextAfter(original, h2, x, key, c)
  }

  /** Applying x always records its labels: it wants some, or it names a map while wanting annotations. */
  predicate RecordsLabels(x: Extras) {
    EffectiveLabels(x) != map[] || (x.labels.Some? && EffectiveAnnotations(x) != map[])
  }

  predicate RecordsAnnotations(x: Extras) {
    EffectiveAnnotations(x) != map[] || (x.annotations.Some? && EffectiveLabels(x) != map[])
  }

  lemma RunSnoc(original: Meta, history: seq<Extras>, x: Extras, c: Codec) returns (o: Meta)
    requires Faithful(c) && original.annotations.Keys !! TRACKING
    ensures Run(original, history, c) == Some(o) && Run(original, history + [x], c) == Applied(o, x, c)
    ensures TrackedLabels(o.annotations, c) == Some(EffectiveLabels(Last(history)))
    ensures TrackedAnnotations(o.annotations, c) == Some(EffectiveAnnotations(Last(history)))
    ensures Applied(o, x, c).Some?
  {
    HistoryReached(original, history, c);
    HistoryReached(original, history + [x], c);
    assert (history + [x])[..|history|] == history;
    o := Run(original, history, c).value;
  }

  lemma AppliedRecords(o: Meta, x: Extras, c: Codec)
    requires Applied(o, x, c).Some?
    ensures var a := Applied(o, x, c).value.annotations;
      && (RecordsLabels(x) ==> ManagedExtraLabels in a && a[ManagedExtraLabels] == c.encodeLabels(EffectiveLabels(x)))
      && (RecordsAnnotations(x) ==>
            ManagedExtraAnnotations in a && a[ManagedExtraAnnotations] == c.encodeAnnotations(EffectiveAnnotations(x)))
  {
  }

  /** From an untracked object, a spec that does not record its labels leaves no text. */
  lemma FirstApplyText(o: Meta, x: Extras, c: Codec)
    requires o.annotations.Keys !! TRACKING && Applied(o, x, c).Some?
    ensures var a := Applied(o, x, c).value.annotations;
      && (!RecordsLabels(x) ==> ManagedExtraLabels !in a)
      && (!RecordsAnnotations(x) ==> ManagedExtraAnnotations !in a)
  {
  }

  /** After an empty record, a spec that wants no labels leaves that record in place. */
  lemma EmptyLabelRecordStays(o: Meta, was: Annotations, x: Extras, c: Codec)
    requires ManagedExtraLabels in o.annotations && TrackedLabels(o.annotations, c) == Some(map[])
    requires TrackedAnnotations(o.annotations, c) == Some(was) && was.Keys !! TRACKING
    requires EffectiveLabels(x) == map[] && Applied(o, x, c).Some?
    ensures ManagedExtraLabels in Applied(o, x, c).value.annotations
  {
  }

  lemma EmptyAnnotationRecordStays(o: Meta, was: Labels, x: Extras, c: Codec)
    requires ManagedExtraAnnotations in o.annotations && TrackedAnnotations(o.annotations, c) == Some(map[])
    requires TrackedLabels(o.annotations, c) == Some(was)
    requires EffectiveAnnotations(x) == map[] && Applied(o, x, c).Some?
    ensures ManagedExtraAnnotations in Applied(o, x, c).value.annotations
  {
  }

  /** An empty map of labels beside some annotation: recorded although nothing is wanted. */
  function EmptyLabels(): Extras {
    Extras(Some(map[]), Some(map[Annotation("") := "v"]))
  }

  function EmptyAnnotations(): Extras {
    Extras(Some(map[Label("") := "v"]), Some(map[]))
  }

  /** With x recorded every history ends in the same text, and that text is the encoding of what x wants. */
  lemma LabelTextWhenRecorded(original: Meta, history: seq<Extras>, x: Extras, c: Codec)
    requires Faithful(c) && original.annotations.Keys !! TRACKING && RecordsLabels(x)
    ensures TextAfter(original, history, x, ManagedExtraLabels, c) == Some(c.encodeLabels(EffectiveLabels(x)))
  {
    var o := RunSnoc(original, history, x, c);
    AppliedRecords(o, x, c);
  }

  lemma AnnotationTextWhenRecorded(original: Meta, history: seq<Extras>, x: Extras, c: Codec)
    requires Faithful(c) && original.annotations.Keys !! TRACKING && RecordsAnnotations(x)
    ensures TextAfter(original, history, x, ManagedExtraAnnotations, c)
      == Some(c.encodeAnnotations(EffectiveAnnotations(x)))
  {
    var o := RunSnoc(original, history, x, c);
    AppliedRecords(o, x, c);
  }

  /** Otherwise applying x alone leaves no text, and applying it after an empty record leaves some. */
  lemma LabelTextWhenUnrecorded(original: Meta, x: Extras, c: Codec)
    requires Faithful(c) && original.annotations.Keys !! TRACKING && !RecordsLabels(x)
    ensures TextAfter(original, [], x, ManagedExtraLabels, c) == None
    ensures TextAfter(original, [EmptyLabels()], x, ManagedExtraLabels, c).Some?
  {
    var first := EmptyLabels();
    var o := RunSnoc(original, [], x, c);
    FirstApplyText(original, x, c);
    assert EffectiveLabels(first) == map[] && Annotation("") in EffectiveAnnotations(first);
    var o0 := RunSnoc(original, [], first, c);
    var o1 := RunSnoc(original, [first], x, c);
    assert [] + [first] == [first];
    AppliedRecords(o0, first, c);
    EmptyLabelRecordStays(o1, EffectiveAnnotations(first), x, c);
  }

  lemma AnnotationTextWhenUnrecorded(original: Meta, x: Extras, c: Codec)
    requires Faithful(c) && original.annotations.Keys !! TRACKING && !RecordsAnnotations(x)
    ensures TextAfter(original, [], x, ManagedExtraAnnotations, c) == None
    ensures TextAfter(original, [EmptyAnnotations()], x, ManagedExtraAnnotations, c).Some?
  {
    var first := EmptyAnnotations();
    var o := RunSnoc(original, [], x, c);
    FirstApplyText(original, x, c);
    assert EffectiveAnnotations(first) == map[] && Label("") in EffectiveLabels(first);
    var o0 := RunSnoc(original, [], first, c);
    var o1 := RunSnoc(original, [first], x, c);
    assert [] + [first] == [first];
    AppliedRecords(o0, first, c);
    EmptyAnnotationRecordStays(o1, EffectiveLabels(first), x, c);
  }

  /** The text of the labels record depends on the last spec alone exactly when that spec records its labels. */
  lemma LabelTextExact(original: Meta, x: Extras, c: Codec)
    requires Faithful(c) && original.annotations.Keys !! TRACKING
    ensures TextDetermined(original, x, ManagedExtraLabels, c) <==> RecordsLabels(x)
  {
    if RecordsLabels(x) {
      forall h1, h2
        ensures TextAfter(original, h1, x, ManagedExtraLabels, c) == TextAfter(original, h2, x, ManagedExtraLabels, c)
      {
        LabelTextWhenRecorded(original, h1, x, c);
        LabelTextWhenRecorded(original, h2, x, c);
      }
    } else {
      LabelTextWhenUnrecorded(original, x, c);
    }
  }

  lemma AnnotationTextExact(original: Meta, x: Extras, c: Codec)
    requires Faithful(c) && original.annotations.Keys !! TRACKING
    ensures TextDetermined(original, x, ManagedExtraAnnotations, c) <==> RecordsAnnotations(x)
  {
    if RecordsAnnotations(x) {
      forall h1, h2
        ensures TextAfter(original, h1, x, ManagedExtraAnnotations, c)
          == TextAfter(original, h2, x, ManagedExtraAnnotations, c)
      {
        AnnotationTextWhenRecorded(original, h1, x, c);
        AnnotationTextWhenRecorded(original, h2, x, c);
      }
    } else {
      AnnotationTextWhenUnrecorded(original, x, c);
    }
  }
}
