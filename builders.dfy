/**
 * The generated builder as an object: the fields its properties' generators
 * declare, `_unsetProperties`, and held nested builders as objects of their
 * own. Every method is proved against the function that specifies it on the
 * abstract builder state (`View()`), whose properties are proved in
 * modules DefaultProperty, BuildableProperty, SortedSetProperty, Generated
 * and BuilderLaws.
 */
module Builders {
  import opened Runtime
  import opened SortedSetProperty
  import opened BuildableProperty
  import opened TypeModel
  import opened Generated
  import DefaultProperty
  import CheckedSet

  /** A buildable field as the abstract state sees it: a held builder is
      represented by its properties. */
  function AbstractHeld(h: Held<NestedBuilder>): HeldState
    reads if h.InProgress? then {h.builder} else {}
  {
    match h
    case Null => Null
    case Built(v) => Built(v)
    case InProgress(b) => InProgress(NestedValue(b.entries))
  }

  function AbstractField(f: Field<NestedBuilder>): Field<NestedValue>
    reads if f.BuildableField? && f.held.InProgress? then {f.held.builder} else {}
  {
    match f
    case PlainField(v) => PlainField(v)
    case SetField(x) => SetField(x)
    case BuildableField(h) => BuildableField(AbstractHeld(h))
  }

  /** A field holding no nested builder. */
  predicate NoBuilderIn<B>(f: Field<B>)
  {
    !(f.BuildableField? && f.held.InProgress?)
  }

  /** The same field, for a state that holds no nested builder. */
  function Concrete(f: Field<NestedValue>): Field<NestedBuilder>
    requires NoBuilderIn(f)
  {
    match f
    case PlainField(v) => PlainField(v)
    case SetField(x) => SetField(x)
    case BuildableField(h) => BuildableField(if h.Null? then Null else Built(h.value))
  }

  /** The nested builder a field holds, if any. */
  function HeldBy(f: Field<NestedBuilder>): set<NestedBuilder>
  {
    if f.BuildableField? && f.held.InProgress? then {f.held.builder} else {}
  }

  /** The nested builders some field holds. */
  ghost function HeldBuilders(fs: seq<Field<NestedBuilder>>): set<NestedBuilder>
  {
    set j | 0 <= j < |fs| && fs[j].BuildableField? && fs[j].held.InProgress? :: fs[j].held.builder
  }

  /** Replacing one field gives up at most the builder it held and takes on
      at most the one the new field holds. */
  lemma HeldBuildersUpdate(fs: seq<Field<NestedBuilder>>, i: nat, f: Field<NestedBuilder>)
    requires i < |fs|
    ensures HeldBuilders(fs[i := f]) <= HeldBuilders(fs) + HeldBy(f)
    ensures HeldBuilders(fs) - HeldBy(fs[i]) <= HeldBuilders(fs[i := f])
    ensures HeldBy(f) <= HeldBuilders(fs[i := f])
    ensures HeldBy(f) == HeldBy(fs[i]) ==> HeldBuilders(fs[i := f]) == HeldBuilders(fs)
  {
    var gs := fs[i := f];
    forall b | b in HeldBuilders(gs) ensures b in HeldBuilders(fs) + HeldBy(f) {
      var j :| 0 <= j < |gs| && gs[j].BuildableField? && gs[j].held.InProgress? && gs[j].held.builder == b;
      if j != i {
        assert fs[j] == gs[j];
      }
    }
    forall b | b in HeldBuilders(fs) - HeldBy(fs[i]) ensures b in HeldBuilders(gs) {
      var j :| 0 <= j < |fs| && fs[j].BuildableField? && fs[j].held.InProgress? && fs[j].held.builder == b;
      assert j != i;
      assert gs[j] == fs[j];
    }
    if f.BuildableField? && f.held.InProgress? {
      assert gs[i] == f;
    }
    if fs[i].BuildableField? && fs[i].held.InProgress? {
      assert fs[i].held.builder in HeldBuilders(fs);
    }
  }

  /** The fields as the abstract state sees them. */
  ghost function AbstractFields(fs: seq<Field<NestedBuilder>>): seq<Field<NestedValue>>
    reads HeldBuilders(fs)
  {
    seq(|fs|, j requires 0 <= j < |fs| reads HeldBuilders(fs) => AbstractField(fs[j]))
  }

  /** Replacing one field replaces one abstract field. */
  lemma AbstractFieldsUpdate(fs: seq<Field<NestedBuilder>>, i: nat, f: Field<NestedBuilder>)
    requires i < |fs|
    ensures AbstractFields(fs[i := f]) == AbstractFields(fs)[i := AbstractField(f)]
  {
  }

  /** Fields whose abstract fields outside position `i` are those of `mid`
      have the abstract fields of `mid` with position `i` replaced. */
  lemma AbstractFieldsExcept(fs: seq<Field<NestedBuilder>>, i: nat, mid: seq<Field<NestedValue>>)
    requires i < |fs| == |mid|
    requires forall j :: 0 <= j < |fs| && j != i ==> AbstractField(fs[j]) == mid[j]
    ensures AbstractFields(fs) == mid[i := AbstractField(fs[i])]
  {
  }

  /** Fields shaped by their properties, and each held nested builder of
      the property's type and held by no other field. */
  ghost predicate WiredFields(md: Metadata, fs: seq<Field<NestedBuilder>>)
  {
    Aligned(md.properties, fs)
    && (forall j :: 0 <= j < |fs| && fs[j].BuildableField? && fs[j].held.InProgress? ==>
          fs[j].held.builder.nestedType == md.properties[j].kind.nested)
    && (forall j, k ::
          0 <= j < |fs| && 0 <= k < |fs| && j != k
          && fs[j].BuildableField? && fs[j].held.InProgress? && fs[k].BuildableField? && fs[k].held.InProgress?
          ==> fs[j].held.builder != fs[k].held.builder)
  }

  /** Replacing a field by one of the same shape, holding the same builder
      or one of the right type held nowhere else, keeps the fields wired. */
  lemma WiredUpdate(md: Metadata, fs: seq<Field<NestedBuilder>>, i: nat, f: Field<NestedBuilder>)
    requires WiredFields(md, fs) && i < |fs| && SameShape(md.properties[i], f)
    requires f.BuildableField? && f.held.InProgress? ==>
      f.held.builder.nestedType == md.properties[i].kind.nested
      && (HeldBy(f) == HeldBy(fs[i]) || f.held.builder !in HeldBuilders(fs))
    ensures WiredFields(md, fs[i := f])
  {
    var gs := fs[i := f];
    forall j, k | 0 <= j < |gs| && 0 <= k < |gs| && j != k
      && gs[j].BuildableField? && gs[j].held.InProgress? && gs[k].BuildableField? && gs[k].held.InProgress?
      ensures gs[j].held.builder != gs[k].held.builder
    {
      if j == i {
        assert fs[k].held.builder in HeldBuilders(fs);
      } else if k == i {
        assert fs[j].held.builder in HeldBuilders(fs);
      }
    }
  }

  /** Replacing a buildable property's field keeps a builder state one. */
  lemma WithBuildableKeepsOk(md: Metadata, s: State, i: nat, h: HeldState)
    requires BuilderOk(md, s) && i < |md.properties| && md.properties[i].kind.Buildable?
    ensures BuilderOk(md, WithField(s, i, BuildableField(h)))
  {
  }

  /** Replacing a set property's field by a set in order keeps a builder
      state one. */
  lemma WithSetKeepsOk(md: Metadata, s: State, i: nat, f: Option<SortedSetValue>)
    requires BuilderOk(md, s) && i < |md.properties| && md.properties[i].kind.SortedSet?
    requires f.Some? ==> WellFormed(f.value)
    ensures BuilderOk(md, WithField(s, i, SetField(f)))
  {
  }

  /** `s` with field `i` replaced. */
  function WithField(s: State, i: nat, f: Field<NestedValue>): State
    requires i < |s.fields|
  {
    State(s.fields[i := f], s.unset)
  }

  /** `prefix` followed by the result, if there is one. */
  function Prefixed(prefix: seq<Slot>, r: Result<seq<Slot>>): Result<seq<Slot>>
  {
    match r
    case Ok(rest) => Ok(prefix + rest)
    case Err(e) => Err(e)
  }

  /** Appending in two steps is appending once. */
  lemma PrefixedAppend(a: seq<Slot>, b: seq<Slot>, r: Result<seq<Slot>>)
    ensures Prefixed(a, Prefixed(b, r)) == Prefixed(a + b, r)
  {
    if r.Ok? {
      assert a + (b + r.value) == (a + b) + r.value;
    }
  }

  /** The fields `tf` and unset set `tu` that `mergeFrom(template)` reads
      from its template are those of a builder of `md` in state `tv`. */
  ghost predicate TemplateIs(md: Metadata, tf: seq<Field<NestedBuilder>>, tu: set<nat>, tv: State)
    reads HeldBuilders(tf)
  {
    WiredFields(md, tf) && State(AbstractFields(tf), tu) == tv && BuilderOk(md, tv)
  }

  class Builder {
    const md: Metadata
    /** This is the builder a partial's `toBuilder()` returns, whose
        `build()` is overridden to return `buildPartial()`. */
    const buildsPartial: bool
    var fields: seq<Field<NestedBuilder>>
    var unset: set<nat>
    /** The nested builders this builder holds. */
    ghost var nested: set<NestedBuilder>

    ghost function Nested(): set<NestedBuilder>
      reads this
    {
      nested
    }

    /** The abstract builder state. */
    ghost function View(): State
      reads this, HeldBuilders(fields)
    {
      State(AbstractFields(fields), unset)
    }

    ghost predicate Wired()
      reads this
    {
      MetadataOk(md) && WiredFields(md, fields) && nested == HeldBuilders(fields)
    }

    /** ... and the abstract state one that a builder of `md` reaches
        (between two calls; `clear()` passes through other states). */
    ghost predicate Valid()
      reads this, Nested()
    {
      Wired() && BuilderOk(md, View())
    }

    /** `new Builder()`: the field initialisers, then the user's
        constructor, whose result is `md.initial`. */
    constructor (md: Metadata, buildsPartial: bool)
      requires MetadataOk(md)
      requires forall j :: 0 <= j < |md.initial.fields| ==> NoBuilderIn(md.initial.fields[j])
      ensures Valid() && View() == md.initial && Nested() == {}
      ensures this.md == md && this.buildsPartial == buildsPartial
    {
      this.md := md;
      this.buildsPartial := buildsPartial;
      fields := seq(|md.initial.fields|, j requires 0 <= j < |md.initial.fields| => Concrete(md.initial.fields[j]));
      unset := md.initial.unset;
      nested := {};
      new;
      assert View().fields == md.initial.fields;
    }

    /** Stores `f` in field `i`, nothing else. */
    method Replace(i: nat, f: Field<NestedBuilder>)
      requires Wired() && i < |fields| && SameShape(md.properties[i], f)
      requires f.BuildableField? && f.held.InProgress? ==>
        f.held.builder.nestedType == md.properties[i].kind.nested
        && (HeldBy(f) == HeldBy(fields[i]) || f.held.builder !in Nested())
      modifies this
      ensures Wired() && fields == old(fields)[i := f] && unset == old(unset)
      ensures View().fields == old(View()).fields[i := AbstractField(f)]
      ensures Nested() <= old(Nested()) + HeldBy(f) && HeldBy(f) <= Nested()
      ensures old(Nested()) - HeldBy(old(fields[i])) <= Nested()
      ensures HeldBy(f) == HeldBy(old(fields[i])) ==> Nested() == old(Nested())
    {
      AbstractFieldsUpdate(fields, i, f);
      HeldBuildersUpdate(fields, i, f);
      WiredUpdate(md, fields, i, f);
      fields := fields[i := f];
      nested := HeldBuilders(fields);
    }

    // -------------------------------------------------------------------
    // Default properties

    /** `setX(value)`. */
    method SetProperty(i: nat, v: Option<Val>) returns (o: Outcome)
      requires Valid() && i < |md.properties| && IsPlain(md.properties[i])
      modifies this
      ensures Valid() && Nested() == old(Nested())
      ensures Step(View(), o) == DefaultProperty.Setter(md.properties, old(View()), i, v)
    {
      if v.None? {
        return Thrown(NullPointer);
      }
      DefaultProperty.AssignKeepsOk(md.properties, View(), i, v.value);
      Replace(i, PlainField(v));
      if IsRequired(md.properties[i]) {
        unset := unset - {i};
      }
      o := Done;
    }

    /** `getX()`. */
    method GetProperty(i: nat) returns (r: Result<Option<Val>>)
      requires Valid() && i < |md.properties| && IsPlain(md.properties[i])
      ensures r == DefaultProperty.Getter(md.properties, View(), i)
    {
      if IsRequired(md.properties[i]) && i in unset {
        r := Err(IllegalState(md.properties[i].name + " not set"));
      } else {
        r := Ok(fields[i].value);
      }
    }

    /** `mapX(mapper)`. */
    method MapProperty(i: nat, mapper: Option<Option<Val> -> Option<Val>>) returns (o: Outcome)
      requires Valid() && i < |md.properties| && IsPlain(md.properties[i])
      modifies this
      ensures Valid() && Nested() == old(Nested())
      ensures Step(View(), o) == DefaultProperty.Mapper(md.properties, old(View()), i, mapper)
    {
      if mapper.None? {
        return Thrown(NullPointer);
      }
      var current := GetProperty(i);
      if current.Err? {
        return Thrown(current.error);
      }
      o := SetProperty(i, mapper.value(current.value));
    }

    // -------------------------------------------------------------------
    // Buildable properties

    /** `setX(value)`: a `null` or value field takes the value; a held
        builder is kept, cleared and merged with the value. */
    method SetNested(i: nat, v: Option<NestedValue>) returns (o: Outcome)
      requires Valid() && i < |md.properties| && md.properties[i].kind.Buildable?
      modifies this, Nested()
      ensures Valid() && Nested() == old(Nested())
      ensures v.None? ==> o == Thrown(NullPointer) && View() == old(View())
      ensures v.Some? ==>
        o == Done && View() == WithField(old(View()), i, BuildableField(SetHeld(old(View()).fields[i].held, v.value)))
    {
      if v.None? {
        return Thrown(NullPointer);
      }
      o := Done;
      WithBuildableKeepsOk(md, View(), i, SetHeld(View().fields[i].held, v.value));
      if fields[i].held.InProgress? {
        var b := fields[i].held.builder;
        ghost var mid := AbstractFields(fields);
        b.Clear();
        b.MergeFromValue(v.value);
        forall j | 0 <= j < |fields| && j != i
          ensures AbstractField(fields[j]) == mid[j]
        {
        }
        AbstractFieldsExcept(fields, i, mid);
        assert Wired();
        assert View() == WithField(old(View()), i, BuildableField(SetHeld(old(View()).fields[i].held, v.value)));
        assert BuilderOk(md, View());
      } else {
        Replace(i, BuildableField(Built(v.value)));
      }
    }

    /** `setX(builder)`: `setX(builder.build())`. */
    method SetNestedFromBuilder(i: nat, builder: NestedBuilder?) returns (o: Outcome)
      requires Valid() && i < |md.properties| && md.properties[i].kind.Buildable?
      modifies this, Nested()
      ensures Valid() && Nested() == old(Nested())
      ensures builder == null ==> o == Thrown(NullPointer) && View() == old(View())
      ensures builder != null ==>
        match NestedBuild(builder.nestedType, old(builder.entries))
        case Err(e) => o == Thrown(e) && View() == old(View())
        case Ok(v) =>
          o == Done && View() == WithField(old(View()), i, BuildableField(SetHeld(old(View()).fields[i].held, v)))
    {
      if builder == null {
        return Thrown(NullPointer);
      }
      var built := builder.Build();
      if built.Err? {
        return Thrown(built.error);
      }
      o := SetNested(i, Some(built.value));
    }

    /** `getXBuilder()`: the field ends up holding a builder, which is
        returned: a new one for `null`, one made from the value for a value
        (and kept), the held one otherwise. */
    method GetNestedBuilder(i: nat) returns (b: NestedBuilder)
      requires Valid() && i < |md.properties| && md.properties[i].kind.Buildable?
      modifies this
      ensures Valid() && Nested() == old(Nested()) + {b}
      ensures View() == WithField(old(View()), i, BuildableField(GetBuilderHeld(old(View()).fields[i].held)))
      ensures fields[i] == BuildableField(InProgress(b))
      ensures old(fields[i]).held.InProgress? ==> b == old(fields[i]).held.builder
      ensures !old(fields[i]).held.InProgress? ==> fresh(b)
    {
      var t := md.properties[i].kind.nested;
      WithBuildableKeepsOk(md, View(), i, GetBuilderHeld(View().fields[i].held));
      match fields[i].held {
        case InProgress(held) =>
          b := held;
        case Null =>
          b := new NestedBuilder(t);
        case Built(v) =>
          if t.toBuilderAndMerge {
            b := ToBuilder(t, v);
          } else {
            b := new NestedBuilder(t);
            b.MergeFromValue(v);
            assert b.entries == v.entries;
          }
      }
      Replace(i, BuildableField(InProgress(b)));
    }

    /** `mutateX(mutator)`: the mutator is applied to `getXBuilder()`. */
    method MutateNested(i: nat, mutator: Option<map<Key, int> -> map<Key, int>>) returns (o: Outcome)
      requires Valid() && i < |md.properties| && md.properties[i].kind.Buildable?
      modifies this, Nested()
      ensures Valid()
      ensures View() == WithField(old(View()), i, BuildableField(MutateHeld(old(View()).fields[i].held, mutator).0))
      ensures o == MutateHeld(old(View()).fields[i].held, mutator).1
    {
      var b := GetNestedBuilder(i);
      if mutator.None? {
        return Thrown(NullPointer);
      }
      WithBuildableKeepsOk(md, old(View()), i, MutateHeld(old(View()).fields[i].held, mutator).0);
      ghost var mid := AbstractFields(fields);
      b.entries := mutator.value(b.entries);
      forall j | 0 <= j < |fields| && j != i
        ensures AbstractField(fields[j]) == mid[j]
      {
      }
      AbstractFieldsExcept(fields, i, mid);
      assert Wired();
      assert View() == WithField(old(View()), i, BuildableField(MutateHeld(old(View()).fields[i].held, mutator).0));
      assert BuilderOk(md, View());
      o := Done;
    }

    // -------------------------------------------------------------------
    // Sorted-set properties

    /** Stores `f` as the set of property `i`. */
    method StoreSet(i: nat, f: Option<SortedSetValue>)
      requires Valid() && i < |md.properties| && md.properties[i].kind.SortedSet?
      requires f.Some? ==> WellFormed(f.value)
      modifies this
      ensures Valid() && Nested() == old(Nested())
      ensures View() == WithField(old(View()), i, SetField(f))
    {
      WithSetKeepsOk(md, View(), i, f);
      Replace(i, SetField(f));
    }

    /** The set of property `i`, created (empty, in natural order) if the
        field is still `null`: `addConvertToTreeSet`. */
    method CurrentSet(i: nat) returns (s: SortedSetValue)
      requires Valid() && i < |md.properties| && md.properties[i].kind.SortedSet?
      ensures s == Materialise(View().fields[i].sorted) && WellFormed(s)
    {
      if fields[i].sorted.Some? {
        s := fields[i].sorted.value;
        assert Fits(md.properties[i], View().fields[i]);
      } else {
        s := SortedSetValue(Natural, []);
      }
    }

    /** `setComparatorOfX(comparator)`. */
    method SetComparatorOf(i: nat, comparator: Option<Comparator>) returns (o: Outcome)
      requires Valid() && i < |md.properties| && md.properties[i].kind.SortedSet?
      modifies this
      ensures Valid() && Nested() == old(Nested())
      ensures View() == WithField(old(View()), i, SetField(SetComparator(old(View()).fields[i].sorted, comparator).field))
      ensures o == SetComparator(old(View()).fields[i].sorted, comparator).outcome
    {
      var f := fields[i].sorted;
      if f.Some? {
        StoreSet(i, f);
        return Thrown(IllegalState("Comparator already set for " + ShowSet(f.value)));
      }
      StoreSet(i, Some(SortedSetValue(if comparator.Some? then comparator.value else Natural, [])));
      o := Done;
    }

    /** `addX(element)`. */
    method AddElement(i: nat, element: Option<int>) returns (o: Outcome)
      requires Valid() && i < |md.properties| && md.properties[i].kind.SortedSet?
      modifies this
      ensures Valid() && Nested() == old(Nested())
      ensures View() == WithField(old(View()), i, SetField(Add(old(View()).fields[i].sorted, element).field))
      ensures o == Add(old(View()).fields[i].sorted, element).outcome
    {
      var s := CurrentSet(i);
      if element.None? {
        o := Thrown(NullPointer);
      } else {
        InsertSpec(s.comparator, s.elements, element.value);
        s := SortedSetValue(s.comparator, Insert(s.comparator, s.elements, element.value));
        o := Done;
      }
      StoreSet(i, Some(s));
    }

    /** `addX(elements...)` and `addAllX(elements)`: `addX` on each element
        in turn, stopping at the first `null`. */
    method AddElements(i: nat, elements: seq<Option<int>>) returns (o: Outcome)
      requires Valid() && i < |md.properties| && md.properties[i].kind.SortedSet?
      modifies this
      ensures Valid() && Nested() == old(Nested())
      ensures View() == WithField(old(View()), i, SetField(AddAll(old(View()).fields[i].sorted, elements).field))
      ensures o == AddAll(old(View()).fields[i].sorted, elements).outcome
    {
      var k := 0;
      while k < |elements|
        invariant 0 <= k <= |elements|
        invariant Valid() && Nested() == old(Nested())
        invariant View().fields[i].SetField?
        invariant View() == WithField(old(View()), i, View().fields[i])
        invariant AddAll(View().fields[i].sorted, elements[k..]) == AddAll(old(View()).fields[i].sorted, elements)
      {
        assert elements[k..][1..] == elements[k + 1..];
        o := AddElement(i, elements[k]);
        if o.Thrown? {
          return;
        }
        k := k + 1;
      }
      assert elements[k..] == [];
      o := Done;
    }

    /** `addAll` for an element type that unboxes: a `null` element throws
        before `add` runs, so it leaves the field untouched. */
    method AddElementsUnboxed(i: nat, elements: seq<Option<int>>) returns (o: Outcome)
      requires Valid() && i < |md.properties| && md.properties[i].kind.SortedSet?
      modifies this
      ensures Valid() && Nested() == old(Nested())
      ensures View() == WithField(old(View()), i, SetField(AddAllUnboxed(old(View()).fields[i].sorted, elements).field))
      ensures o == AddAllUnboxed(old(View()).fields[i].sorted, elements).outcome
    {
      var k := 0;
      while k < |elements|
        invariant 0 <= k <= |elements|
        invariant Valid() && Nested() == old(Nested())
        invariant View().fields[i].SetField?
        invariant View() == WithField(old(View()), i, View().fields[i])
        invariant AddAllUnboxed(View().fields[i].sorted, elements[k..]) == AddAllUnboxed(old(View()).fields[i].sorted, elements)
      {
        assert elements[k..][1..] == elements[k + 1..];
        if elements[k].None? {
          return Thrown(NullPointer);
        }
        o := AddElement(i, elements[k]);
        k := k + 1;
      }
      assert elements[k..] == [];
      o := Done;
    }

    /** `removeX(element)`. */
    method RemoveFromSet(i: nat, element: Option<int>) returns (o: Outcome)
      requires Valid() && i < |md.properties| && md.properties[i].kind.SortedSet?
      modifies this
      ensures Valid() && Nested() == old(Nested())
      ensures View() == WithField(old(View()), i, SetField(RemoveElement(old(View()).fields[i].sorted, element).field))
      ensures o == RemoveElement(old(View()).fields[i].sorted, element).outcome
    {
      var s := CurrentSet(i);
      if element.None? {
        o := Thrown(NullPointer);
      } else {
        RemoveSpec(s.comparator, s.elements, element.value);
        s := SortedSetValue(s.comparator, Remove(s.comparator, s.elements, element.value));
        o := Done;
      }
      StoreSet(i, Some(s));
    }

    /** The mutator's operations on set `s` of property `i`: directly, or,
        when the user's builder overrides `addX`, through a `CheckedSet`
        whose adds go through it. */
    method ApplyMutator(i: nat, s: SortedSetValue, ops: seq<SetOp>) returns (r: SortedSetValue)
      requires i < |md.properties| && md.properties[i].kind.SortedSet? && WellFormed(s)
      ensures r == ApplyOps(s, ops) && WellFormed(r) && r.comparator == s.comparator
    {
      ApplyOpsKeepsOrder(s, ops);
      if md.properties[i].kind.overridesAdd {
        r := CheckedSet.ApplyThroughAdapter(s, ops);
      } else {
        r := ApplyOps(s, ops);
      }
    }

    /** `mutateX(mutator)`: the set is created, then handed to the
        mutator. */
    method MutateSet(i: nat, mutator: Option<seq<SetOp>>) returns (o: Outcome)
      requires Valid() && i < |md.properties| && md.properties[i].kind.SortedSet?
      modifies this
      ensures Valid() && Nested() == old(Nested())
      ensures View() == WithField(old(View()), i, SetField(Mutate(old(View()).fields[i].sorted, mutator).field))
      ensures o == Mutate(old(View()).fields[i].sorted, mutator).outcome
    {
      var s := CurrentSet(i);
      if mutator.None? {
        o := Thrown(NullPointer);
      } else {
        s := ApplyMutator(i, s, mutator.value);
        o := Done;
      }
      StoreSet(i, Some(s));
    }

    /** `clearX()`: empties the set, keeping its comparator; a `null`
        field stays `null`. */
    method ClearSet(i: nat)
      requires Valid() && i < |md.properties| && md.properties[i].kind.SortedSet?
      modifies this
      ensures Valid() && Nested() == old(Nested())
      ensures View() == WithField(old(View()), i, SetField(SortedSetProperty.Clear(old(View()).fields[i].sorted)))
    {
      var f := fields[i].sorted;
      if f.Some? {
        StoreSet(i, Some(SortedSetValue(f.value.comparator, [])));
      }
    }

    /** `getX()`: the set (created if the field is `null`), seen through an
        unmodifiable view. */
    method GetSet(i: nat) returns (s: SortedSetValue)
      requires Valid() && i < |md.properties| && md.properties[i].kind.SortedSet?
      modifies this
      ensures Valid() && Nested() == old(Nested())
      ensures s == Materialise(old(View()).fields[i].sorted) && WellFormed(s)
      ensures View() == WithField(old(View()), i, SetField(Some(s)))
    {
      s := CurrentSet(i);
      StoreSet(i, Some(s));
    }

    // -------------------------------------------------------------------
    // mergeFrom(value)

    /** A buildable property's code in `mergeFrom(value)`: a `null` field
        takes the value, otherwise the value is merged into
        `getXBuilder()`. */
    method MergeValueNested(i: nat, v: NestedValue)
      requires Valid() && i < |md.properties| && md.properties[i].kind.Buildable?
      modifies this, Nested()
      ensures Valid() && fresh(Nested() - old(Nested()))
      ensures View() == WithField(old(View()), i, BuildableField(MergeValueHeld(old(View()).fields[i].held, v)))
    {
      WithBuildableKeepsOk(md, View(), i, MergeValueHeld(View().fields[i].held, v));
      if fields[i].held.Null? {
        Replace(i, BuildableField(Built(v)));
      } else {
        var b := GetNestedBuilder(i);
        ghost var mid := AbstractFields(fields);
        b.MergeFromValue(v);
        forall j | 0 <= j < |fields| && j != i
          ensures AbstractField(fields[j]) == mid[j]
        {
        }
        AbstractFieldsExcept(fields, i, mid);
        assert Wired();
        assert View() == WithField(old(View()), i, BuildableField(MergeValueHeld(old(View()).fields[i].held, v)));
        assert BuilderOk(md, View());
      }
    }

    /** A default property's code in `mergeFrom(value)`: the getter, then
        the setter when the value is to be copied. */
    method MergeValuePlain(i: nat, src: Instance) returns (o: Outcome)
      requires Valid() && i < |md.properties| && IsPlain(md.properties[i]) && InstanceOk(md.properties, src)
      modifies this
      ensures Valid() && Nested() == old(Nested())
      ensures Step(View(), o) == DefaultProperty.MergeFromValue(md.properties, Defaults(md), old(View()), src, i)
    {
      match InstanceGet(md.properties, src, i)
      case Err(e) =>
        o := Thrown(e);
      case Ok(slot) =>
        if DefaultProperty.MergeValueCopies(md.properties, Defaults(md), i, slot.value) {
          o := SetProperty(i, slot.value);
        } else {
          o := Done;
        }
    }

    /** The code of property `i`'s generator in `mergeFrom(value)`. */
    method MergeValueAt(i: nat, src: Instance, ghost target: Step) returns (o: Outcome)
      requires Valid() && i < |md.properties| && InstanceOk(md.properties, src)
      requires MergeValueFrom(md, View(), src, i) == target
      modifies this, Nested()
      ensures Valid() && fresh(Nested() - old(Nested()))
      ensures o.Thrown? ==> Step(View(), o) == target
      ensures !o.Thrown? ==> MergeValueFrom(md, View(), src, i + 1) == target
    {
      match md.properties[i].kind {
        case Buildable(_) =>
          MergeValueNested(i, src.slots[i].nested);
          o := Done;
        case SortedSet(_) =>
          var xs := src.slots[i].sorted.elements;
          AddAllIsInsertAll(fields[i].sorted, xs);
          o := AddElements(i, seq(|xs|, k requires 0 <= k < |xs| => Some(xs[k])));
        case _ =>
          o := MergeValuePlain(i, src);
      }
    }

    /** The code of properties `k` onwards in `mergeFrom(value)`, each in
        turn; the first exception propagates. `target` is where they lead. */
    method MergeValueFromAt(k: nat, src: Instance, ghost target: Step) returns (o: Outcome)
      requires Valid() && k <= |md.properties| && InstanceOk(md.properties, src)
      requires MergeValueFrom(md, View(), src, k) == target
      modifies this, Nested()
      ensures Valid() && fresh(Nested() - old(Nested()))
      ensures Step(View(), o) == target
      decreases |md.properties| - k
    {
      o := Done;
      if k < |md.properties| {
        o := MergeValueAt(k, src, target);
        if !o.Thrown? {
          o := MergeValueFromAt(k + 1, src, target);
        }
      }
    }

    /** `mergeFrom(value)`. */
    method MergeFromValue(src: Instance) returns (o: Outcome)
      requires Valid() && InstanceOk(md.properties, src)
      modifies this, Nested()
      ensures Valid() && fresh(Nested() - old(Nested()))
      ensures Step(View(), o) == Generated.MergeFromValue(md, old(View()), src)
    {
      o := MergeValueFromAt(0, src, Generated.MergeFromValue(md, View(), src));
    }

    // -------------------------------------------------------------------
    // mergeFrom(builder)

    /** A buildable property's code in `mergeFrom(template)` when the
        template holds builder `tb`: its `buildPartial()` (or `tb` itself)
        is merged into `getXBuilder()`; `tb` is left as it was. */
    method MergeEntriesFrom(i: nat, tb: NestedBuilder)
      requires Valid() && i < |md.properties| && md.properties[i].kind.Buildable? && tb !in Nested()
      modifies this, Nested()
      ensures Valid() && fresh(Nested() - old(Nested())) && tb.entries == old(tb.entries)
      ensures View() == WithField(old(View()), i,
        BuildableField(MergeBuilderHeld(old(View()).fields[i].held, InProgress(NestedValue(old(tb.entries))))))
    {
      WithBuildableKeepsOk(md, View(), i, MergeBuilderHeld(View().fields[i].held, InProgress(NestedValue(tb.entries))));
      var b := GetNestedBuilder(i);
      ghost var held := b.entries;
      ghost var mid := AbstractFields(fields);
      if md.properties[i].kind.nested.buildPartialAndMerge {
        var v := tb.BuildPartial();
        b.MergeFromValue(v);
      } else {
        b.MergeFromBuilder(tb);
      }
      assert b.entries == held + old(tb.entries);
      forall j | 0 <= j < |fields| && j != i
        ensures AbstractField(fields[j]) == mid[j]
      {
      }
      AbstractFieldsExcept(fields, i, mid);
      assert Wired();
      assert View() == WithField(old(View()), i,
        BuildableField(MergeBuilderHeld(old(View()).fields[i].held, InProgress(NestedValue(old(tb.entries))))));
      assert BuilderOk(md, View());
    }

    /** A default property's code in `mergeFrom(template)`. */
    method MergeBuilderPlain(i: nat, tf: seq<Field<NestedBuilder>>, tu: set<nat>, ghost tv: State)
      requires Valid() && TemplateIs(md, tf, tu, tv) && HeldBuilders(tf) !! Nested()
      requires i < |md.properties| && IsPlain(md.properties[i])
      modifies this
      ensures Valid() && Nested() == old(Nested())
      ensures View() == MergeBuilderStep(md, old(View()), tv, i)
    {
      var value := tf[i].value;
      assert tv.fields[i] == PlainField(value);
      var differs := !md.initialAvailable || value != md.initial.fields[i].value;
      var copies := if IsRequired(md.properties[i]) then i !in tu && (differs || i in md.initial.unset) else differs;
      assert copies == DefaultProperty.MergeBuilderCopies(md.properties, Defaults(md), tv, i);
      if copies {
        var _ := SetProperty(i, value);
      }
    }

    /** A buildable property's code in `mergeFrom(template)`: nothing for
        a `null` template field, a value is merged as by `mergeFrom(value)`,
        a builder as by `MergeEntriesFrom`. */
    method MergeBuilderNested(i: nat, tf: seq<Field<NestedBuilder>>, tu: set<nat>, ghost tv: State)
      requires Valid() && TemplateIs(md, tf, tu, tv) && HeldBuilders(tf) !! Nested()
      requires i < |md.properties| && md.properties[i].kind.Buildable?
      modifies this, Nested()
      ensures Valid() && fresh(Nested() - old(Nested()))
      ensures TemplateIs(md, tf, tu, tv) && HeldBuilders(tf) !! Nested()
      ensures View() == MergeBuilderStep(md, old(View()), tv, i)
    {
      match tf[i].held {
        case Null =>
          assert tv.fields[i].held == Null;
          assert View() == WithField(View(), i, View().fields[i]);
        case Built(v) =>
          assert tv.fields[i].held == Built(v);
          MergeValueNested(i, v);
        case InProgress(tb) =>
          assert tb in HeldBuilders(tf);
          assert tv.fields[i].held == InProgress(NestedValue(tb.entries));
          MergeEntriesFrom(i, tb);
      }
    }

    /** A set property's code in `mergeFrom(template)`: the template's
        elements are added, if it has a set. */
    method MergeBuilderSet(i: nat, tf: seq<Field<NestedBuilder>>, tu: set<nat>, ghost tv: State)
      requires Valid() && TemplateIs(md, tf, tu, tv) && HeldBuilders(tf) !! Nested()
      requires i < |md.properties| && md.properties[i].kind.SortedSet?
      modifies this
      ensures Valid() && Nested() == old(Nested())
      ensures View() == MergeBuilderStep(md, old(View()), tv, i)
    {
      assert tv.fields[i] == SetField(tf[i].sorted);
      if tf[i].sorted.Some? {
        var xs := tf[i].sorted.value.elements;
        AddAllIsInsertAll(fields[i].sorted, xs);
        var _ := AddElements(i, seq(|xs|, k requires 0 <= k < |xs| => Some(xs[k])));
      }
    }

    /** The code of property `i`'s generator in `mergeFrom(template)`:
        what is left to do after it leads where it led before. */
    method MergeBuilderAt(i: nat, tf: seq<Field<NestedBuilder>>, tu: set<nat>, ghost tv: State, ghost target: State)
      requires Valid() && TemplateIs(md, tf, tu, tv) && HeldBuilders(tf) !! Nested()
      requires i < |md.properties| && MergeBuilderFrom(md, View(), tv, i) == target
      modifies this, Nested()
      ensures Valid() && fresh(Nested() - old(Nested()))
      ensures TemplateIs(md, tf, tu, tv) && HeldBuilders(tf) !! Nested()
      ensures MergeBuilderFrom(md, View(), tv, i + 1) == target
    {
      match md.properties[i].kind {
        case Buildable(_) =>
          MergeBuilderNested(i, tf, tu, tv);
        case SortedSet(_) =>
          MergeBuilderSet(i, tf, tu, tv);
        case _ =>
          MergeBuilderPlain(i, tf, tu, tv);
      }
    }

    /** `mergeFrom(template)`, for a template that is another builder of
        the same type. Property `i`'s code reads only the template's field
        `i` and whether `i` is unset, and nothing changes the template. */
    method MergeFromBuilder(t: Builder)
      requires Valid() && t.Valid() && t != this && t.md == md && Nested() !! t.Nested()
      modifies this, Nested()
      ensures Valid() && fresh(Nested() - old(Nested()))
      ensures View() == Generated.MergeFromBuilder(md, old(View()), old(t.View()))
      ensures t.View() == old(t.View())
    {
      var tf, tu := t.fields, t.unset;
      ghost var tv := t.View();
      ghost var target := Generated.MergeFromBuilder(md, View(), tv);
      var k := 0;
      while k < |md.properties|
        invariant k <= |md.properties|
        invariant Valid() && TemplateIs(md, tf, tu, tv) && HeldBuilders(tf) !! Nested()
        invariant fresh(Nested() - old(Nested()))
        invariant MergeBuilderFrom(md, View(), tv, k) == target
      {
        MergeBuilderAt(k, tf, tu, tv, target);
        k := k + 1;
      }
    }

    // -------------------------------------------------------------------
    // clear()

    /** Property `k`'s code in `clear()`. */
    method ClearAt(k: nat)
      requires Wired() && k < |fields|
      modifies this, Nested()
      ensures Wired() && Nested() == old(Nested()) && unset == old(unset) && |fields| == old(|fields|)
      ensures View().fields == old(View()).fields[k := ClearedField(md, old(View()), k)]
    {
      var f := fields[k];
      if f.BuildableField? && f.held.InProgress? {
        ghost var mid := AbstractFields(fields);
        f.held.builder.Clear();
        forall j | 0 <= j < |fields| && j != k
          ensures AbstractField(fields[j]) == mid[j]
        {
        }
        AbstractFieldsExcept(fields, k, mid);
      } else if f.BuildableField? {
        Replace(k, BuildableField(Null));
      } else if f.SetField? {
        if f.sorted.Some? {
          Replace(k, SetField(Some(SortedSetValue(f.sorted.value.comparator, []))));
        }
      } else if md.initialAvailable {
        assert Fits(md.properties[k], md.initial.fields[k]);
        Replace(k, PlainField(md.initial.fields[k].value));
      }
    }

    /** `clear()`: each property's clear code, then the unset set of the
        fresh builder, when there is one and some property is required. */
    method Clear()
      requires Valid()
      modifies this, Nested()
      ensures Valid() && Nested() == old(Nested())
      ensures View() == Generated.Clear(md, old(View()))
    {
      var k := 0;
      while k < |fields|
        invariant 0 <= k <= |fields| == |old(fields)|
        invariant Wired() && Nested() == old(Nested()) && unset == old(unset)
        invariant forall j :: 0 <= j < k ==> View().fields[j] == ClearedField(md, old(View()), j)
        invariant forall j :: k <= j < |fields| ==> View().fields[j] == old(View()).fields[j]
      {
        ClearAt(k);
        k := k + 1;
      }
      if HasRequired(md.properties) && md.initialAvailable {
        unset := md.initial.unset;
      }
      assert View() == Generated.Clear(md, old(View()));
    }

    // -------------------------------------------------------------------
    // build() and buildPartial()

    /** `buildPartial()`. */
    method BuildPartial() returns (p: Instance)
      requires Valid()
      ensures p == Generated.BuildPartial(md, View())
    {
      var slots := [];
      var k := 0;
      while k < |fields|
        invariant 0 <= k <= |fields|
        invariant |slots| == k && forall j :: 0 <= j < k ==> slots[j] == PartialSlot(View().fields[j])
      {
        var slot;
        match fields[k] {
          case PlainField(v) => slot := PlainSlot(v);
          case SetField(x) => slot := SetSlot(if x.Some? then x.value else SortedSetValue(Natural, []));
          case BuildableField(h) =>
            match h {
              case Null =>
                var empty := new NestedBuilder(md.properties[k].kind.nested);
                var v := empty.BuildPartial();
                slot := NestedSlot(v);
              case Built(v) => slot := NestedSlot(v);
              case InProgress(b) =>
                var v := b.BuildPartial();
                slot := NestedSlot(v);
            }
        }
        slots := slots + [slot];
        k := k + 1;
      }
      p := Partial(slots, unset);
    }

    /** The value type's constructor on field `k`: the field's final value,
        where a nested `build()` can throw. */
    method FinalSlotAt(k: nat) returns (slot: Result<Slot>)
      requires Valid() && k < |fields|
      ensures slot == FinalSlot(md.properties[k], View().fields[k])
    {
      match fields[k] {
        case PlainField(v) => slot := Ok(PlainSlot(v));
        case SetField(x) => slot := Ok(SetSlot(if x.Some? then x.value else SortedSetValue(Natural, [])));
        case BuildableField(h) =>
          var t := md.properties[k].kind.nested;
          match h {
            case Null =>
              var empty := new NestedBuilder(t);
              var built := empty.Build();
              slot := if built.Ok? then Ok(NestedSlot(built.value)) else Err(built.error);
            case Built(v) => slot := Ok(NestedSlot(v));
            case InProgress(b) =>
              var built := b.Build();
              slot := if built.Ok? then Ok(NestedSlot(built.value)) else Err(built.error);
          }
      }
    }

    /** The value type's constructor on every field: the first nested
        `build()` that throws propagates. */
    method FinalSlotsOf() returns (r: Result<seq<Slot>>)
      requires Valid()
      ensures r == FinalSlots(md.properties, View().fields, 0)
    {
      ghost var fs := View().fields;
      var slots := [];
      var k := 0;
      assert Prefixed([], FinalSlots(md.properties, fs, 0)) == FinalSlots(md.properties, fs, 0) by {
        var r0 := FinalSlots(md.properties, fs, 0);
        if r0.Ok? {
          assert [] + r0.value == r0.value;
        }
      }
      while k < |fields|
        invariant 0 <= k <= |fields| && View().fields == fs
        invariant FinalSlots(md.properties, fs, 0) == Prefixed(slots, FinalSlots(md.properties, fs, k))
      {
        var slot := FinalSlotAt(k);
        assert View().fields == fs;
        ghost var rest := FinalSlots(md.properties, fs, k + 1);
        if slot.Err? {
          assert FinalSlots(md.properties, fs, k) == Err(slot.error);
          return Err(slot.error);
        }
        assert FinalSlots(md.properties, fs, k) == Prefixed([slot.value], rest);
        PrefixedAppend(slots, [slot.value], rest);
        slots := slots + [slot.value];
        k := k + 1;
      }
      assert slots + [] == slots;
      r := Ok(slots);
    }

    /** `build()`: throws `IllegalStateException("Not set: [...]")` while a
        required property is unset; otherwise the value type's constructor,
        in which the first nested `build()` that throws propagates. A
        builder made by a partial's `toBuilder()` returns `buildPartial()`. */
    method Build() returns (r: Result<Instance>)
      requires Valid()
      ensures r == Generated.Build(md, View(), buildsPartial)
    {
      if buildsPartial {
        var p := BuildPartial();
        return Ok(p);
      }
      if HasRequired(md.properties) && unset != {} {
        return Err(IllegalState("Not set: " + ShowList(UnsetNames(md.properties, unset, 0))));
      }
      var slots := FinalSlotsOf();
      r := if slots.Ok? then Ok(Value(slots.value)) else Err(slots.error);
    }
  }
}
