/**
 * The runtime contract of what the code generator emits around the
 * properties: the builder-wide `mergeFrom`, `clear`, `build` and
 * `buildPartial` methods, and the value and partial types with their
 * getters, `equals` and `toBuilder`. Each builder-wide method runs the code
 * of each property's generator in declaration order; here that is a fold
 * over the property positions on the abstract builder state.
 */
module Generated {
  import opened Runtime
  import opened SortedSetProperty
  import opened BuildableProperty
  import opened TypeModel
  import DefaultProperty

  // ---------------------------------------------------------------------
  // mergeFrom(value)

  /** `mergeFrom(value)`, for property `i`. */
  function MergeValueStep(md: Metadata, s: State, src: Instance, i: nat): (r: Step)
    requires MetadataOk(md) && BuilderOk(md, s) && InstanceOk(md.properties, src) && i < |md.properties|
    ensures BuilderOk(md, r.state) && DefaultProperty.Touches(s, r.state, i)
    ensures r.outcome.Thrown? ==> r.state == s && ThrowsFromGetterOrSetter(r.outcome.error)
  {
    match md.properties[i].kind
    case Buildable(_) =>
      Step(State(s.fields[i := BuildableField(MergeValueHeld(s.fields[i].held, src.slots[i].nested))], s.unset), Done)
    case SortedSet(_) =>
      MergeElementsKeepsOrder(s.fields[i].sorted, src.slots[i].sorted.elements);
      Step(State(s.fields[i := SetField(MergeElements(s.fields[i].sorted, src.slots[i].sorted.elements))], s.unset), Done)
    case _ =>
      DefaultProperty.MergeFromValue(md.properties, Defaults(md), s, src, i)
  }

  /** What `mergeFrom(value)` can throw: the setter's
      `NullPointerException`, or a partial getter's
      `UnsupportedOperationException("<name> not set")`. */
  predicate ThrowsFromGetterOrSetter(e: Error)
  {
    e == NullPointer || (e.UnsupportedOperation? && |e.message| > 0)
  }

  /** `mergeFrom(value)` from property `k` on: stops at the first property
      that throws, keeping what the earlier ones did. */
  function MergeValueFrom(md: Metadata, s: State, src: Instance, k: nat): (r: Step)
    requires MetadataOk(md) && BuilderOk(md, s) && InstanceOk(md.properties, src) && k <= |md.properties|
    ensures BuilderOk(md, r.state)
    ensures r.outcome.Thrown? ==> ThrowsFromGetterOrSetter(r.outcome.error)
    decreases |md.properties| - k
  {
    if k == |md.properties| then Step(s, Done)
    else
      var step := MergeValueStep(md, s, src, k);
      if step.outcome.Thrown? then step else MergeValueFrom(md, step.state, src, k + 1)
  }

  /** `mergeFrom(value)`. */
  function MergeFromValue(md: Metadata, s: State, src: Instance): (r: Step)
    requires MetadataOk(md) && BuilderOk(md, s) && InstanceOk(md.properties, src)
    ensures BuilderOk(md, r.state)
    ensures r.outcome.Thrown? ==> ThrowsFromGetterOrSetter(r.outcome.error)
  {
    MergeValueFrom(md, s, src, 0)
  }

  // ---------------------------------------------------------------------
  // mergeFrom(builder)

  /** `mergeFrom(template)`, for property `i`. */
  function MergeBuilderStep(md: Metadata, s: State, t: State, i: nat): (r: State)
    requires MetadataOk(md) && BuilderOk(md, s) && BuilderOk(md, t) && i < |md.properties|
    ensures BuilderOk(md, r) && DefaultProperty.Touches(s, r, i)
  {
    match md.properties[i].kind
    case Buildable(_) =>
      State(s.fields[i := BuildableField(MergeBuilderHeld(s.fields[i].held, t.fields[i].held))], s.unset)
    case SortedSet(_) =>
      if t.fields[i].sorted.None? then s
      else
        MergeElementsKeepsOrder(s.fields[i].sorted, t.fields[i].sorted.value.elements);
        State(s.fields[i := SetField(MergeElements(s.fields[i].sorted, t.fields[i].sorted.value.elements))], s.unset)
    case _ =>
      DefaultProperty.MergeFromBuilder(md.properties, Defaults(md), s, t, i)
  }

  /** `mergeFrom(template)` from property `k` on. It never throws. */
  function MergeBuilderFrom(md: Metadata, s: State, t: State, k: nat): (r: State)
    requires MetadataOk(md) && BuilderOk(md, s) && BuilderOk(md, t) && k <= |md.properties|
    ensures BuilderOk(md, r)
    decreases |md.properties| - k
  {
    if k == |md.properties| then s
    else MergeBuilderFrom(md, MergeBuilderStep(md, s, t, k), t, k + 1)
  }

  /** `mergeFrom(template)`: what the template held when the call began is
      merged in (for `template == this` too, since property `i` reads only
      the template's field `i` and whether `i` is unset). */
  function MergeFromBuilder(md: Metadata, s: State, t: State): (r: State)
    requires MetadataOk(md) && BuilderOk(md, s) && BuilderOk(md, t)
    ensures BuilderOk(md, r)
  {
    MergeBuilderFrom(md, s, t, 0)
  }

  // ---------------------------------------------------------------------
  // clear()

  /** `clear()`, for the field at position `j`. */
  function ClearedField(md: Metadata, s: State, j: nat): Field<NestedValue>
    requires j < |s.fields|
  {
    match s.fields[j]
    case BuildableField(h) => BuildableField(ClearHeld(h))
    case SetField(x) => SetField(SortedSetProperty.Clear(x))
    case PlainField(_) =>
      if md.initialAvailable && j < |md.initial.fields| then md.initial.fields[j] else s.fields[j]
  }

  /** `clear()`: every property's clear code, then, when the type has a
      required property and a fresh builder is available, the fresh
      builder's unset properties. */
  function Clear(md: Metadata, s: State): (r: State)
    requires MetadataOk(md) && BuilderOk(md, s)
    ensures BuilderOk(md, r)
  {
    HasRequiredIffIndices(md.properties);
    State(
      seq(|s.fields|, j requires 0 <= j < |s.fields| => ClearedField(md, s, j)),
      if HasRequired(md.properties) && md.initialAvailable then md.initial.unset else s.unset)
  }

  // ---------------------------------------------------------------------
  // build() and buildPartial()

  /** The value type's constructor, for one field: a buildable property's
      nested `build()` can throw. */
  function FinalSlot(p: Property, f: Field<NestedValue>): Result<Slot>
    requires SameShape(p, f)
  {
    match f
    case PlainField(v) => Ok(PlainSlot(v))
    case SetField(x) => Ok(SetSlot(FinalValue(x)))
    case BuildableField(h) =>
      match FinalHeld(p.kind.nested, h)
      case Ok(v) => Ok(NestedSlot(v))
      case Err(e) => Err(e)
  }

  /** The value type's constructor from field `k` on: the first failure
      propagates. */
  function FinalSlots(props: seq<Property>, fields: seq<Field<NestedValue>>, k: nat): Result<seq<Slot>>
    requires Aligned(props, fields) && k <= |props|
    decreases |props| - k
  {
    if k == |props| then Ok([])
    else match FinalSlot(props[k], fields[k])
      case Err(e) => Err(e)
      case Ok(x) =>
        match FinalSlots(props, fields, k + 1)
        case Err(e) => Err(e)
        case Ok(rest) => Ok([x] + rest)
  }

  /** The partial type's constructor, for one field: nothing can throw. */
  function PartialSlot(f: Field<NestedValue>): Slot
  {
    match f
    case PlainField(v) => PlainSlot(v)
    case SetField(x) => SetSlot(FinalValue(x))
    case BuildableField(h) => NestedSlot(PartialHeld(h))
  }

  /** The names of the properties at `positions`, in that order: what an
      `EnumSet` of the property enum's constants prints. */
  function PositionNames(props: seq<Property>, positions: seq<nat>): (names: seq<string>)
    requires forall a :: 0 <= a < |positions| ==> positions[a] < |props|
    ensures |names| == |positions|
    ensures forall a :: 0 <= a < |positions| ==> names[a] == props[positions[a]].name
  {
    if positions == [] then []
    else [props[positions[0]].name] + PositionNames(props, positions[1..])
  }

  /** The names of the unset properties from position `k` on, in
      declaration order (the order `EnumSet` iterates in). */
  function UnsetNames(props: seq<Property>, unset: set<nat>, k: nat): (names: seq<string>)
    requires k <= |props|
    ensures |names| == 0 <==> forall j :: k <= j < |props| ==> j !in unset
    decreases |props| - k
  {
    if k == |props| then []
    else (if k in unset then [props[k].name] else []) + UnsetNames(props, unset, k + 1)
  }

  /** `build()`. A builder whose `build()` is overridden to return
      `buildPartial()` (the partial's `toBuilder()`) is `buildsPartial`. */
  function Build(md: Metadata, s: State, buildsPartial: bool): (r: Result<Instance>)
    requires Aligned(md.properties, s.fields)
  {
    if buildsPartial then Ok(BuildPartial(md, s))
    else if HasRequired(md.properties) && s.unset != {} then
      Err(IllegalState("Not set: " + ShowList(UnsetNames(md.properties, s.unset, 0))))
    else
      match FinalSlots(md.properties, s.fields, 0)
      case Err(e) => Err(e)
      case Ok(slots) => Ok(Value(slots))
  }

  /** `buildPartial()`: never throws, and keeps a copy of the unset set. */
  function BuildPartial(md: Metadata, s: State): (r: Instance)
    ensures r.Partial? && r.unset == s.unset && |r.slots| == |s.fields|
  {
    Partial(seq(|s.fields|, j requires 0 <= j < |s.fields| => PartialSlot(s.fields[j])), s.unset)
  }

  // ---------------------------------------------------------------------
  // equals

  /** Field equality as the generated `equals` tests it: `Objects.equals`
      (or `==`), the nested type's `equals`, and `AbstractSet.equals`. */
  predicate SlotEquals(a: Slot, b: Slot)
  {
    match a
    case PlainSlot(x) => b.PlainSlot? && x == b.value
    case NestedSlot(x) => b.NestedSlot? && x == b.nested
    case SetSlot(x) => b.SetSlot? && SetEquals(x, b.sorted)
  }

  predicate SlotsEqual(a: seq<Slot>, b: seq<Slot>)
  {
    |a| == |b| && forall j :: 0 <= j < |a| ==> SlotEquals(a[j], b[j])
  }

  /** `x.equals(obj)`. `userEquals` is what a user-written `equals` returns
      for the pair. A value compares fields unless the user wrote `equals`;
      a non-final user `equals` is still never true for a partial. A
      partial compares fields and, when the type has a required property,
      the unset sets, unless the user's `equals` is final. */
  function Equals(md: Metadata, x: Instance, obj: Instance, userEquals: bool): bool
  {
    match x
    case Value(slots) =>
      (match md.equalsUnderride
       case Absent => obj.Value? && SlotsEqual(slots, obj.slots)
       case Overrideable => !obj.Partial? && userEquals
       case Final => userEquals)
    case Partial(slots, unset) =>
      if md.equalsUnderride == Final then userEquals
      else obj.Partial? && SlotsEqual(slots, obj.slots) && (HasRequired(md.properties) ==> unset == obj.unset)
  }

  // ---------------------------------------------------------------------
  // Builder.from and toBuilder

  /** The static `from(value)`, generated when the builder has a factory:
      a new builder, then `mergeFrom(value)`. */
  function From(md: Metadata, v: Instance): (r: Step)
    requires MetadataOk(md) && InstanceOk(md.properties, v)
    requires md.builderFactory.Some?
    ensures BuilderOk(md, r.state)
  {
    MergeFromValue(md, md.initial, v)
  }

  /** The value's `toBuilder()`: `from(this)`, or
      `UnsupportedOperationException` (with no message) when no builder
      factory is known. */
  function ValueToBuilder(md: Metadata, v: Instance): (r: Result<State>)
    requires MetadataOk(md) && InstanceOk(md.properties, v)
    requires md.hasToBuilder
    ensures r.Ok? ==> BuilderOk(md, r.value)
  {
    if md.builderFactory.None? then Err(UnsupportedOperation(""))
    else
      var m := From(md, v);
      if m.outcome.Thrown? then Err(m.outcome.error) else Ok(m.state)
  }

  /** The partial's `toBuilder()`, for property `i`. */
  function SetFromPartialStep(md: Metadata, s: State, p: Instance, i: nat): (r: State)
    requires MetadataOk(md) && BuilderOk(md, s) && InstanceOk(md.properties, p) && i < |md.properties|
    ensures BuilderOk(md, r) && DefaultProperty.Touches(s, r, i)
  {
    match md.properties[i].kind
    case Buildable(_) =>
      State(s.fields[i := BuildableField(SetFromPartialHeld(s.fields[i].held, p.slots[i].nested))], s.unset)
    case SortedSet(_) =>
      MergeElementsKeepsOrder(s.fields[i].sorted, p.slots[i].sorted.elements);
      State(s.fields[i := SetField(MergeElements(s.fields[i].sorted, p.slots[i].sorted.elements))], s.unset)
    case _ =>
      DefaultProperty.SetFromPartial(md.properties, s, p, i)
  }

  function SetFromPartialFrom(md: Metadata, s: State, p: Instance, k: nat): (r: State)
    requires MetadataOk(md) && BuilderOk(md, s) && InstanceOk(md.properties, p) && k <= |md.properties|
    ensures BuilderOk(md, r)
    decreases |md.properties| - k
  {
    if k == |md.properties| then s
    else SetFromPartialFrom(md, SetFromPartialStep(md, s, p, k), p, k + 1)
  }

  /** The partial's `toBuilder()`: when the builder is extensible, a new
      builder whose `build()` returns `buildPartial()`, with every property
      the partial has copied in; otherwise
      `UnsupportedOperationException`. */
  function PartialToBuilder(md: Metadata, p: Instance): (r: Result<State>)
    requires MetadataOk(md) && InstanceOk(md.properties, p)
    requires md.hasToBuilder
    ensures r.Ok? ==> BuilderOk(md, r.value)
  {
    if !md.extensible then Err(UnsupportedOperation(""))
    else Ok(SetFromPartialFrom(md, md.initial, p, 0))
  }
}
