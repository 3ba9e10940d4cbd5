/**
 * What the generated builder, value and partial promise, proved about the
 * functions that specify them.
 */
module BuilderLaws {
  import opened Runtime
  import opened SortedSetProperty
  import opened BuildableProperty
  import opened TypeModel
  import opened Generated
  import DefaultProperty

  /** The value constructor succeeds exactly when every field's final value
      does, and then holds those values in order. */
  lemma {:induction false} FinalSlotsSpec(props: seq<Property>, fields: seq<Field<NestedValue>>, k: nat)
    requires Aligned(props, fields) && k <= |props|
    ensures FinalSlots(props, fields, k).Ok? <==> forall j :: k <= j < |props| ==> FinalSlot(props[j], fields[j]).Ok?
    ensures FinalSlots(props, fields, k).Ok? ==>
      |FinalSlots(props, fields, k).value| == |props| - k
      && forall j :: k <= j < |props| ==> FinalSlots(props, fields, k).value[j - k] == FinalSlot(props[j], fields[j]).value
    decreases |props| - k
  {
    if k == |props| {
      assert FinalSlots(props, fields, k) == Ok([]);
    } else {
      FinalSlotsSpec(props, fields, k + 1);
      FinalSlotsStep(props, fields, k);
    }
  }

  /** One step of `FinalSlotsSpec`: from field `k + 1` on to field `k` on. */
  lemma FinalSlotsStep(props: seq<Property>, fields: seq<Field<NestedValue>>, k: nat)
    requires Aligned(props, fields) && k < |props|
    requires FinalSlots(props, fields, k + 1).Ok? <==> forall j :: k + 1 <= j < |props| ==> FinalSlot(props[j], fields[j]).Ok?
    requires FinalSlots(props, fields, k + 1).Ok? ==>
      |FinalSlots(props, fields, k + 1).value| == |props| - (k + 1)
      && forall j :: k + 1 <= j < |props| ==> FinalSlots(props, fields, k + 1).value[j - (k + 1)] == FinalSlot(props[j], fields[j]).value
    ensures FinalSlots(props, fields, k).Ok? <==> forall j :: k <= j < |props| ==> FinalSlot(props[j], fields[j]).Ok?
    ensures FinalSlots(props, fields, k).Ok? ==>
      |FinalSlots(props, fields, k).value| == |props| - k
      && forall j :: k <= j < |props| ==> FinalSlots(props, fields, k).value[j - k] == FinalSlot(props[j], fields[j]).value
  {
    var head := FinalSlot(props[k], fields[k]);
    var tail := FinalSlots(props, fields, k + 1);
    var r := FinalSlots(props, fields, k);
    if head.Err? {
      assert r.Err?;
    } else if tail.Err? {
      assert r.Err?;
    } else {
      assert r == Ok([head.value] + tail.value);
      forall j | k <= j < |props|
        ensures r.value[j - k] == FinalSlot(props[j], fields[j]).value
      {
        if j > k {
          assert r.value[j - k] == tail.value[j - (k + 1)];
        }
      }
    }
  }

  /** The unset names are those of the unset properties. */
  lemma {:induction false} UnsetNamesSpec(props: seq<Property>, unset: set<nat>, k: nat)
    requires k <= |props|
    ensures forall x :: x in UnsetNames(props, unset, k) <==>
      exists j :: k <= j < |props| && j in unset && props[j].name == x
    decreases |props| - k
  {
    if k < |props| {
      UnsetNamesSpec(props, unset, k + 1);
      forall x | x in UnsetNames(props, unset, k)
        ensures exists j :: k <= j < |props| && j in unset && props[j].name == x
      {
        if x !in UnsetNames(props, unset, k + 1) {
          assert k in unset && props[k].name == x;
        }
      }
    }
  }

  /** The unset names come in declaration order: listing the unset
      positions from `k` on in increasing order as `ix`, the message holds
      the name at each of them, one for one. */
  lemma {:induction false} UnsetNamesInOrder(props: seq<Property>, unset: set<nat>, k: nat, ix: seq<nat>)
    requires k <= |props| && Increasing(ix)
    requires forall a :: 0 <= a < |ix| ==> k <= ix[a] < |props| && ix[a] in unset
    requires forall j {:trigger j in ix} :: k <= j < |props| && j in unset ==> j in ix
    ensures UnsetNames(props, unset, k) == PositionNames(props, ix)
    decreases |props| - k
  {
    if |ix| == 0 {
      forall j | k <= j < |props| && j in unset
        ensures j in ix
      {
      }
    } else if k in unset {
      assert k <= ix[0] < |props|;
      IndicesFirst(props, unset, k, ix);
      UnsetNamesInOrder(props, unset, k + 1, ix[1..]);
      NamesFirst(props, unset, k, ix);
    } else {
      assert k <= ix[0] < |props|;
      IndicesSkip(props, unset, k, ix);
      UnsetNamesInOrder(props, unset, k + 1, ix);
    }
  }

  /** Naming `k` in front of the names of the rest when `k` is first. */
  lemma NamesFirst(props: seq<Property>, unset: set<nat>, k: nat, ix: seq<nat>)
    requires k < |props| && k in unset && |ix| != 0 && ix[0] == k
    requires forall a :: 0 <= a < |ix| ==> ix[a] < |props|
    requires UnsetNames(props, unset, k + 1) == PositionNames(props, ix[1..])
    ensures UnsetNames(props, unset, k) == PositionNames(props, ix)
  {
  }

  /** When position `k` is unset it is the first of `ix`, and the rest list
      the unset positions after it. */
  lemma IndicesFirst(props: seq<Property>, unset: set<nat>, k: nat, ix: seq<nat>)
    requires k < |props| && k in unset && Increasing(ix)
    requires forall a :: 0 <= a < |ix| ==> k <= ix[a] < |props| && ix[a] in unset
    requires forall j {:trigger j in ix} :: k <= j < |props| && j in unset ==> j in ix
    ensures |ix| != 0 && ix[0] == k && Increasing(ix[1..])
    ensures forall a :: 0 <= a < |ix| - 1 ==> k + 1 <= ix[1..][a] < |props| && ix[1..][a] in unset
    ensures forall j {:trigger j in ix[1..]} :: k + 1 <= j < |props| && j in unset ==> j in ix[1..]
  {
    assert k in ix;
    var a :| 0 <= a < |ix| && ix[a] == k;
    assert a == 0 by {
      assert k <= ix[0];
    }
    var tail := ix[1..];
    forall j | k + 1 <= j < |props| && j in unset ensures j in tail {
      assert j in ix;
      var b :| 0 <= b < |ix| && ix[b] == j;
      assert tail[b - 1] == j;
    }
  }

  /** When position `k` is not unset, every listed position lies after it. */
  lemma IndicesSkip(props: seq<Property>, unset: set<nat>, k: nat, ix: seq<nat>)
    requires k !in unset
    requires forall a :: 0 <= a < |ix| ==> k <= ix[a] < |props| && ix[a] in unset
    ensures forall a :: 0 <= a < |ix| ==> k + 1 <= ix[a] < |props| && ix[a] in unset
  {
  }

  /** A field's final value fails only for a nested value that does not
      build. */
  lemma FinalSlotSpec(p: Property, f: Field<NestedValue>)
    requires SameShape(p, f)
    ensures FinalSlot(p, f).Ok? <==> !p.kind.Buildable? || FinalHeld(p.kind.nested, f.held).Ok?
    ensures FinalSlot(p, f).Ok? && f.PlainField? ==> FinalSlot(p, f).value == PlainSlot(f.value)
  {
  }

  /** `build()` succeeds exactly when no required property is unset and
      every nested value builds; with an unset property it throws
      `IllegalStateException("Not set: [...]")` naming them. */
  lemma BuildSpec(md: Metadata, s: State)
    requires MetadataOk(md) && BuilderOk(md, s)
    ensures Build(md, s, false).Ok? <==>
      s.unset == {}
      && forall j :: 0 <= j < |md.properties| && md.properties[j].kind.Buildable? ==>
           FinalHeld(md.properties[j].kind.nested, s.fields[j].held).Ok?
    ensures s.unset != {} ==>
      Build(md, s, false) == Err(IllegalState("Not set: " + ShowList(UnsetNames(md.properties, s.unset, 0))))
      && |UnsetNames(md.properties, s.unset, 0)| > 0
  {
    var props := md.properties;
    FinalSlotsSpec(props, s.fields, 0);
    if s.unset != {} {
      var j :| j in s.unset;
      assert IsRequired(props[j]);
      assert HasRequired(props);
    } else {
      forall j | 0 <= j < |props|
        ensures FinalSlot(props[j], s.fields[j]).Ok? <==>
          !props[j].kind.Buildable? || FinalHeld(props[j].kind.nested, s.fields[j].held).Ok?
      {
        FinalSlotSpec(props[j], s.fields[j]);
      }
    }
  }

  /** A built value is a value holding, field by field, what the builder
      held (a nested value built, a set copied). */
  lemma BuiltValueSpec(md: Metadata, s: State)
    requires MetadataOk(md) && BuilderOk(md, s)
    requires Build(md, s, false).Ok?
    ensures var v := Build(md, s, false).value;
      v.Value? && InstanceOk(md.properties, v)
      && forall j :: 0 <= j < |md.properties| ==>
           FinalSlot(md.properties[j], s.fields[j]).Ok? && v.slots[j] == FinalSlot(md.properties[j], s.fields[j]).value
  {
    var props := md.properties;
    FinalSlotsSpec(props, s.fields, 0);
    var v := Build(md, s, false).value;
    assert v.slots == FinalSlots(props, s.fields, 0).value;
    forall j | 0 <= j < |props|
      ensures FinalSlot(props[j], s.fields[j]).Ok? && v.slots[j] == FinalSlot(props[j], s.fields[j]).value
      ensures SlotFits(props[j], v.slots[j])
      ensures v.slots[j].PlainSlot? ==> v.slots[j].value.Some?
    {
      assert v.slots[j] == FinalSlots(props, s.fields, 0).value[j - 0];
      assert Fits(props[j], s.fields[j]);
      FinalSlotSpec(props[j], s.fields[j]);
    }
  }

  /** `buildPartial()` never throws, keeps the unset set, and its getter
      throws `UnsupportedOperationException` exactly for the unset
      properties; every other getter returns what the builder held. */
  lemma BuildPartialSpec(md: Metadata, s: State)
    requires MetadataOk(md) && BuilderOk(md, s)
    ensures var p := BuildPartial(md, s);
      InstanceOk(md.properties, p)
      && Build(md, s, true) == Ok(p)
      && forall j :: 0 <= j < |md.properties| ==>
           (InstanceGet(md.properties, p, j).Err? <==> j in s.unset)
           && (j in s.unset ==>
                 InstanceGet(md.properties, p, j) == Err(UnsupportedOperation(md.properties[j].name + " not set")))
           && (j !in s.unset ==> InstanceGet(md.properties, p, j) == Ok(PartialSlot(s.fields[j])))
  {
    var p := BuildPartial(md, s);
    forall j | 0 <= j < |md.properties|
      ensures SlotFits(md.properties[j], p.slots[j])
    {
      assert Fits(md.properties[j], s.fields[j]);
    }
  }

  /** With a fresh builder available, `clear()` puts every default property
      and the unset set back as a new builder has them; without one those
      are left alone. Either way nested builders and sets are emptied (a set
      that exists keeps its comparator), and clearing twice is clearing
      once. */
  lemma ClearSpec(md: Metadata, s: State)
    requires MetadataOk(md) && BuilderOk(md, s)
    ensures var r := Generated.Clear(md, s);
      (md.initialAvailable ==>
         r.unset == md.initial.unset
         && forall j :: 0 <= j < |s.fields| && IsPlain(md.properties[j]) ==> r.fields[j] == md.initial.fields[j])
      && (!md.initialAvailable ==>
         r.unset == s.unset
         && forall j :: 0 <= j < |s.fields| && IsPlain(md.properties[j]) ==> r.fields[j] == s.fields[j])
      && (forall j :: 0 <= j < |s.fields| && md.properties[j].kind.Buildable? ==>
            PartialHeld(r.fields[j].held).entries == map[])
      && (forall j :: 0 <= j < |s.fields| && md.properties[j].kind.SortedSet? ==>
            r.fields[j].sorted == SortedSetProperty.Clear(s.fields[j].sorted))
      && Generated.Clear(md, r) == r
  {
    var props := md.properties;
    var r := Generated.Clear(md, s);
    HasRequiredIffIndices(props);
    forall j | 0 <= j < |s.fields|
      ensures SameShape(props[j], s.fields[j])
    {
      assert Fits(props[j], s.fields[j]);
    }
    var rr := Generated.Clear(md, r);
    forall j | 0 <= j < |s.fields|
      ensures rr.fields[j] == r.fields[j]
    {
    }
  }

  /** Java set equality is reflexive on a tree set. */
  lemma SetEqualsReflexive(a: SortedSetValue)
    ensures SetEquals(a, a)
  {
    forall e | e in a.elements
      ensures Holds(a.comparator, a.elements, e)
    {
    }
  }

  /** A value or partial equals itself (when a user-written `equals` does);
      and unless the user's `equals` is final, a value never equals a
      partial nor a partial a value. */
  lemma EqualsSpec(md: Metadata, x: Instance, y: Instance)
    ensures Equals(md, x, x, true)
    ensures md.equalsUnderride != Final && x.Value? && y.Partial? ==>
      !Equals(md, x, y, true) && !Equals(md, y, x, true)
  {
    forall j | 0 <= j < |x.slots|
      ensures SlotEquals(x.slots[j], x.slots[j])
    {
      if x.slots[j].SetSlot? {
        SetEqualsReflexive(x.slots[j].sorted);
      }
    }
  }

  /** Two partials that differ only in which required properties are unset
      are not equal. */
  lemma PartialEqualsComparesUnset(md: Metadata, p: Instance, q: Instance)
    requires p.Partial? && q.Partial? && p.slots == q.slots && p.unset != q.unset
    requires md.equalsUnderride != Final
    requires HasRequired(md.properties)
    ensures !Equals(md, p, q, true)
  {
  }
}
