/**
 * Round trips through a builder: a value copied into a new builder builds
 * a value equal to it, and a partial's `toBuilder()` builds a partial equal
 * to it. Equal, not identical: a sorted set copied into a new builder is
 * re-sorted under the natural ordering, which `AbstractSet.equals` does not
 * see.
 */
module RoundTrip {
  import opened Runtime
  import opened SortedSetProperty
  import opened BuildableProperty
  import opened TypeModel
  import opened Generated
  import opened BuilderLaws
  import DefaultProperty

  /** A set field as a builder constructor may leave it for the round trip
      to hold: `null`, or an empty set under a comparator consistent with
      `equals` (a constructor that only calls `setComparatorX`). */
  predicate FreshSet(f: Option<SortedSetValue>)
  {
    f.None? || (f.value.elements == [] && f.value.comparator != ByMagnitude)
  }

  /** The builder constructor leaves buildable fields as their initialisers
      do, `null`, and adds no element to a set field. */
  ghost predicate Untouched(md: Metadata)
  {
    |md.initial.fields| == |md.properties|
    && forall j :: 0 <= j < |md.properties| ==>
         (md.properties[j].kind.Buildable? ==> md.initial.fields[j] == BuildableField(Null))
         && (md.properties[j].kind.SortedSet? ==>
               md.initial.fields[j].SetField? && FreshSet(md.initial.fields[j].sorted))
  }

  // ---------------------------------------------------------------------
  // Copying a set into a new builder

  ghost predicate Distinct(a: seq<int>)
  {
    forall i, j :: 0 <= i < j < |a| ==> a[i] != a[j]
  }

  lemma {:induction false} DistinctCard(a: seq<int>)
    requires Distinct(a)
    ensures |set y | y in a| == |a|
  {
    if |a| != 0 {
      var t := a[1..];
      assert Distinct(t) by {
        forall i, j | 0 <= i < j < |t| ensures t[i] != t[j] {
          assert t[i] == a[i + 1] && t[j] == a[j + 1];
        }
      }
      DistinctCard(t);
      assert a == [a[0]] + t;
      assert (set y | y in a) == {a[0]} + (set y | y in t);
      assert a[0] !in (set y | y in t) by {
        forall k | 0 <= k < |t| ensures t[k] != a[0] {
          assert t[k] == a[k + 1];
        }
      }
    }
  }

  lemma AscendingDistinct(c: Comparator, a: seq<int>)
    requires Ascending(c, a)
    ensures Distinct(a)
  {
    forall i, j | 0 <= i < j < |a| ensures a[i] != a[j] {
      assert Rank(c, a[i]) < Rank(c, a[j]);
    }
  }

  /** Two duplicate-free sequences with the same elements are equally
      long. */
  lemma DistinctSameLength(a: seq<int>, b: seq<int>)
    requires Distinct(a) && Distinct(b)
    requires forall e :: e in a <==> e in b
    ensures |a| == |b|
  {
    DistinctCard(a);
    DistinctCard(b);
    assert (set y | y in a) == (set y | y in b);
  }

  /** In a duplicate-free sequence every element is the first of its rank
      under a comparator consistent with `equals`. */
  lemma {:induction false} DistinctFirstOfRank(c: Comparator, xs: seq<int>, e: int)
    requires c != ByMagnitude && Distinct(xs) && e in xs
    ensures FirstOfRank(c, xs, e)
    decreases |xs|
  {
    if xs[0] != e {
      assert Rank(c, xs[0]) != Rank(c, e);
      assert e in xs[1..];
      DistinctFirstOfRank(c, xs[1..], e);
    }
  }

  /** Adding the elements of an ordered set one by one to an empty set
      under a comparator consistent with `equals` gives the same
      elements. */
  lemma InsertAllMembers(c: Comparator, target: Comparator, xs: seq<int>)
    requires Ascending(c, xs) && target != ByMagnitude
    ensures forall e :: e in InsertAll(target, [], xs) <==> e in xs
  {
    InsertAllFirstWins(target, [], xs);
    AscendingDistinct(c, xs);
    assert [] + xs == xs;
    forall e ensures e in InsertAll(target, [], xs) <==> e in xs {
      if e in xs {
        DistinctFirstOfRank(target, xs, e);
      } else if FirstOfRank(target, xs, e) {
        FirstOfRankIn(target, xs, e);
      }
    }
  }

  /** ... and as many of them. */
  lemma InsertAllSame(c: Comparator, target: Comparator, xs: seq<int>)
    requires Ascending(c, xs) && target != ByMagnitude
    ensures forall e :: e in InsertAll(target, [], xs) <==> e in xs
    ensures |InsertAll(target, [], xs)| == |xs|
  {
    var r := InsertAll(target, [], xs);
    InsertAllMembers(c, target, xs);
    AscendingDistinct(c, xs);
    InsertAllKeepsOrder(target, [], xs);
    AscendingDistinct(target, r);
    DistinctSameLength(r, xs);
  }

  /** The elements of a set copied into a new builder: `addAll` into the
      set the builder holds, `null` (then naturally ordered) or empty. */
  lemma SetCopy(field: Option<SortedSetValue>, x: SortedSetValue)
    requires WellFormed(x) && FreshSet(field)
    ensures var r := FinalValue(MergeElements(field, x.elements));
      r.comparator == Materialise(field).comparator
      && r.elements == InsertAll(r.comparator, [], x.elements)
      && (forall e :: e in r.elements <==> e in x.elements)
      && |r.elements| == |x.elements|
  {
    InsertAllSame(x.comparator, Materialise(field).comparator, x.elements);
  }

  /** A set copied into a new builder equals the original, both ways
      round. */
  lemma SetCopyEquals(field: Option<SortedSetValue>, x: SortedSetValue)
    requires WellFormed(x) && FreshSet(field)
    ensures SetEquals(FinalValue(MergeElements(field, x.elements)), x)
    ensures SetEquals(x, FinalValue(MergeElements(field, x.elements)))
  {
    var r := FinalValue(MergeElements(field, x.elements));
    SetCopy(field, x);
    forall e | e in x.elements ensures Holds(r.comparator, r.elements, e) {
    }
    forall e | e in r.elements ensures Holds(x.comparator, x.elements, e) {
    }
  }

  /** Why `FreshSet` excludes `ByMagnitude`: copying `[-3, 3]` into an
      empty set under it keeps only `-3`, which the original does not
      equal. */
  lemma SetCopyByMagnitudeCollapses()
    ensures WellFormed(SortedSetValue(Natural, [-3, 3]))
    ensures FinalValue(MergeElements(Some(SortedSetValue(ByMagnitude, [])), [-3, 3])) == SortedSetValue(ByMagnitude, [-3])
    ensures !SetEquals(SortedSetValue(Natural, [-3, 3]), SortedSetValue(ByMagnitude, [-3]))
  {
    assert Insert(ByMagnitude, [], -3) == [-3];
    assert Insert(ByMagnitude, [-3], 3) == [-3];
    assert InsertAll(ByMagnitude, [-3], [3]) == [-3];
    assert InsertAll(ByMagnitude, [], [-3, 3]) == [-3];
  }

  // ---------------------------------------------------------------------
  // Builder.from(value).build()

  /** What `from(v)` leaves in field `j`. */
  ghost predicate ValueCopied(md: Metadata, v: Instance, f: Field<NestedValue>, j: nat)
    requires j < |md.properties| && |v.slots| == |md.properties| && |md.initial.fields| == |md.properties|
  {
    match md.properties[j].kind
    case Buildable(_) => v.slots[j].NestedSlot? && f == BuildableField(Built(v.slots[j].nested))
    case SortedSet(_) =>
      v.slots[j].SetSlot? && md.initial.fields[j].SetField?
      && f == SetField(MergeElements(md.initial.fields[j].sorted, v.slots[j].sorted.elements))
    case _ => v.slots[j].PlainSlot? && f == PlainField(v.slots[j].value)
  }

  /** One property of `mergeFrom(v)` on a field still as in a new builder. */
  lemma ValueStepFromFresh(md: Metadata, s: State, v: Instance, j: nat)
    requires MetadataOk(md) && Untouched(md) && BuilderOk(md, s)
    requires v.Value? && InstanceOk(md.properties, v) && j < |md.properties|
    requires s.fields[j] == md.initial.fields[j]
    ensures var r := MergeValueStep(md, s, v, j);
      r.outcome.Done? && r.state.unset == s.unset - {j} && ValueCopied(md, v, r.state.fields[j], j)
  {
  }

  lemma {:induction false} ValueFoldFromFresh(md: Metadata, s: State, v: Instance, k: nat)
    requires MetadataOk(md) && Untouched(md) && BuilderOk(md, s)
    requires v.Value? && InstanceOk(md.properties, v) && k <= |md.properties|
    requires forall j :: 0 <= j < k ==> ValueCopied(md, v, s.fields[j], j)
    requires forall j :: k <= j < |md.properties| ==> s.fields[j] == md.initial.fields[j]
    requires forall j :: j in s.unset ==> k <= j
    ensures var r := MergeValueFrom(md, s, v, k);
      r.outcome.Done? && r.state.unset == {}
      && forall j :: 0 <= j < |md.properties| ==> ValueCopied(md, v, r.state.fields[j], j)
    decreases |md.properties| - k
  {
    if k < |md.properties| {
      ValueStepFromFresh(md, s, v, k);
      var next := MergeValueStep(md, s, v, k).state;
      ValueFoldFromFresh(md, next, v, k + 1);
    } else {
      assert forall j :: j in s.unset ==> false;
    }
  }

  /** `Builder.from(v).build()` returns a value equal to `v`, in both
      directions of `equals`. */
  lemma FromThenBuild(md: Metadata, v: Instance)
    requires MetadataOk(md) && Untouched(md) && md.builderFactory.Some?
    requires v.Value? && InstanceOk(md.properties, v)
    ensures From(md, v).outcome.Done?
    ensures var b := Build(md, From(md, v).state, false);
      b.Ok? && b.value.Value?
      && SlotsEqual(b.value.slots, v.slots) && SlotsEqual(v.slots, b.value.slots)
      && (md.equalsUnderride == Absent ==> Equals(md, b.value, v, false) && Equals(md, v, b.value, false))
  {
    var props := md.properties;
    var s := From(md, v).state;
    forall j | j in md.initial.unset ensures 0 <= j {
    }
    ValueFoldFromFresh(md, md.initial, v, 0);
    BuildSpec(md, s);
    forall j | 0 <= j < |props| && props[j].kind.Buildable?
      ensures FinalHeld(props[j].kind.nested, s.fields[j].held).Ok?
    {
      assert ValueCopied(md, v, s.fields[j], j);
    }
    BuiltValueSpec(md, s);
    var w := Build(md, s, false).value;
    forall j | 0 <= j < |props|
      ensures SlotEquals(w.slots[j], v.slots[j]) && SlotEquals(v.slots[j], w.slots[j])
    {
      assert ValueCopied(md, v, s.fields[j], j);
      assert SlotFits(props[j], v.slots[j]);
      if props[j].kind.SortedSet? {
        SetCopyEquals(md.initial.fields[j].sorted, v.slots[j].sorted);
      }
    }
  }

  /** Without `Untouched` the round trip fails: when the builder
      constructor adds an element to a set property, `from(v)` merges `v`'s
      elements into that set, and `build()` returns a value holding the
      constructor's element too, which `v` does not equal. */
  lemma FromKeepsConstructorElements()
    ensures var props := [Property("tags", SortedSet(false), false)];
      var md := Metadata(props, true, Some(NoArgsConstructor), false, true, false,
        Absent, Absent, Absent, State([SetField(Some(SortedSetValue(Natural, [1])))], {}), true);
      var v := Value([SetSlot(SortedSetValue(Natural, [2]))]);
      MetadataOk(md) && !Untouched(md) && InstanceOk(props, v)
      && From(md, v).outcome.Done?
      && Build(md, From(md, v).state, false) == Ok(Value([SetSlot(SortedSetValue(Natural, [1, 2]))]))
      && !SlotsEqual(Build(md, From(md, v).state, false).value.slots, v.slots)
  {
    var props := [Property("tags", SortedSet(false), false)];
    var md := Metadata(props, true, Some(NoArgsConstructor), false, true, false,
      Absent, Absent, Absent, State([SetField(Some(SortedSetValue(Natural, [1])))], {}), true);
    var v := Value([SetSlot(SortedSetValue(Natural, [2]))]);
    assert RequiredIndices(props) == {};
    assert MetadataOk(md);
    var merged := State([SetField(Some(SortedSetValue(Natural, [1, 2])))], {});
    assert Insert(Natural, [1], 2) == [1] + Insert(Natural, [], 2) == [1, 2];
    assert InsertAll(Natural, [1], [2]) == [1, 2];
    assert MergeElements(Some(SortedSetValue(Natural, [1])), [2]) == Some(SortedSetValue(Natural, [1, 2]));
    assert MergeValueStep(md, md.initial, v, 0) == Step(merged, Done);
    assert From(md, v) == Step(merged, Done);
    var fs := merged.fields;
    assert FinalSlots(props, fs, 1) == Ok([]);
    assert FinalSlot(props[0], fs[0]) == Ok(SetSlot(SortedSetValue(Natural, [1, 2])));
    assert [SetSlot(SortedSetValue(Natural, [1, 2]))] + [] == [SetSlot(SortedSetValue(Natural, [1, 2]))];
    assert FinalSlots(props, fs, 0) == Ok([SetSlot(SortedSetValue(Natural, [1, 2]))]);
    assert !Holds(Natural, [2], 1);
  }

  // ---------------------------------------------------------------------
  // partial.toBuilder().build()

  /** The partial was made by `buildPartial()`: an unset property holds what
      it held in a new builder. */
  ghost predicate MadeByBuilder(md: Metadata, p: Instance)
  {
    p.Partial? && forall j :: j in p.unset ==>
      j < |p.slots| && j < |md.initial.fields| && md.initial.fields[j].PlainField?
      && p.slots[j] == PlainSlot(md.initial.fields[j].value)
  }

  /** Every partial `buildPartial()` returns is one. */
  lemma BuildPartialMadeByBuilder(md: Metadata, s: State)
    requires MetadataOk(md) && BuilderOk(md, s)
    ensures MadeByBuilder(md, BuildPartial(md, s))
  {
    forall j | j in s.unset
      ensures md.initial.fields[j].PlainField?
    {
      assert IsRequired(md.properties[j]);
      assert Fits(md.properties[j], md.initial.fields[j]);
    }
  }

  /** What the partial's `toBuilder()` leaves in field `j`. */
  ghost predicate PartialCopied(md: Metadata, p: Instance, f: Field<NestedValue>, j: nat)
    requires j < |md.properties| && |p.slots| == |md.properties| && |md.initial.fields| == |md.properties|
  {
    match md.properties[j].kind
    case Buildable(_) => p.slots[j].NestedSlot? && f == BuildableField(SetFromPartialHeld(Null, p.slots[j].nested))
    case SortedSet(_) =>
      p.slots[j].SetSlot? && md.initial.fields[j].SetField?
      && f == SetField(MergeElements(md.initial.fields[j].sorted, p.slots[j].sorted.elements))
    case _ => if j in UnsetOf(p) then f == md.initial.fields[j] else p.slots[j].PlainSlot? && f == PlainField(p.slots[j].value)
  }

  lemma PartialStepFromFresh(md: Metadata, s: State, p: Instance, j: nat)
    requires MetadataOk(md) && Untouched(md) && BuilderOk(md, s)
    requires p.Partial? && InstanceOk(md.properties, p) && j < |md.properties|
    requires s.fields[j] == md.initial.fields[j]
    ensures var r := SetFromPartialStep(md, s, p, j);
      (r.unset == if j in p.unset then s.unset else s.unset - {j})
      && PartialCopied(md, p, r.fields[j], j)
  {
  }

  lemma {:induction false} PartialFoldFromFresh(md: Metadata, s: State, p: Instance, k: nat)
    requires MetadataOk(md) && Untouched(md) && BuilderOk(md, s)
    requires p.Partial? && InstanceOk(md.properties, p) && k <= |md.properties|
    requires forall j :: 0 <= j < k ==> PartialCopied(md, p, s.fields[j], j)
    requires forall j :: k <= j < |md.properties| ==> s.fields[j] == md.initial.fields[j]
    requires forall j :: j in s.unset <==> j in p.unset || (k <= j && j in md.initial.unset)
    ensures var r := SetFromPartialFrom(md, s, p, k);
      r.unset == p.unset
      && forall j :: 0 <= j < |md.properties| ==> PartialCopied(md, p, r.fields[j], j)
    decreases |md.properties| - k
  {
    if k < |md.properties| {
      PartialStepFromFresh(md, s, p, k);
      var next := SetFromPartialStep(md, s, p, k);
      PartialFoldFromFresh(md, next, p, k + 1);
    } else {
      assert forall j :: j in md.initial.unset ==> j < |md.properties|;
    }
  }

  /** When the builder is extensible, a partial's `toBuilder()` gives a
      builder whose `build()` returns a partial equal to the original (the
      same unset properties, equal fields, both ways round). */
  lemma PartialToBuilderThenBuild(md: Metadata, p: Instance)
    requires MetadataOk(md) && Untouched(md) && md.hasToBuilder && md.extensible
    requires InstanceOk(md.properties, p) && MadeByBuilder(md, p)
    ensures PartialToBuilder(md, p).Ok?
    ensures var b := Build(md, PartialToBuilder(md, p).value, true);
      b.Ok? && b.value.Partial? && b.value.unset == p.unset
      && SlotsEqual(b.value.slots, p.slots) && SlotsEqual(p.slots, b.value.slots)
      && (md.equalsUnderride != Final ==> Equals(md, b.value, p, true) && Equals(md, p, b.value, true))
  {
    var props := md.properties;
    PartialFoldFromFresh(md, md.initial, p, 0);
    var s := PartialToBuilder(md, p).value;
    var q := BuildPartial(md, s);
    forall j | 0 <= j < |props|
      ensures SlotEquals(q.slots[j], p.slots[j]) && SlotEquals(p.slots[j], q.slots[j])
    {
      assert PartialCopied(md, p, s.fields[j], j);
      assert SlotFits(props[j], p.slots[j]);
      match props[j].kind {
        case SortedSet(_) =>
          SetCopyEquals(md.initial.fields[j].sorted, p.slots[j].sorted);
        case Buildable(_) =>
          assert map[] + p.slots[j].nested.entries == p.slots[j].nested.entries;
        case _ =>
      }
    }
  }
}
