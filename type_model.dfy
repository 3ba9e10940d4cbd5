/**
 * What the processor knows about the annotated type (its properties and the
 * choices that shape the generated code), the abstract state of a generated
 * builder, and the generated value and partial types.
 */
module TypeModel {
  import opened Runtime
  import opened SortedSetProperty
  import opened BuildableProperty

  /** How a property is generated. `Required` and `HasDefault` are the two
      types of a default (plain) property: `HasDefault` when the user's
      builder constructor calls its setter. */
  datatype Kind =
    | Required
    | HasDefault
    | Buildable(nested: NestedType)
    /** `overridesAdd`: the user's builder overrides the element add method. */
    | SortedSet(overridesAdd: bool)

  /** A property: its name (as used in messages), how it is generated, and
      whether its Java type is primitive (`int`) rather than a reference. */
  datatype Property = Property(name: string, kind: Kind, primitive: bool)

  /** `IS_REQUIRED`. */
  predicate IsRequired(p: Property)
  {
    p.kind.Required?
  }

  /** A property handled by the default (plain) code generator. */
  predicate IsPlain(p: Property)
  {
    p.kind.Required? || p.kind.HasDefault?
  }

  /** The positions of the required properties. */
  function RequiredIndices(props: seq<Property>): set<nat>
  {
    set i | 0 <= i < |props| && IsRequired(props[i])
  }

  /** Strictly increasing positions. */
  ghost predicate Increasing(idx: seq<nat>)
  {
    forall a, b :: 0 <= a < b < |idx| ==> idx[a] < idx[b]
  }

  /** `properties.stream().anyMatch(IS_REQUIRED)`. */
  predicate HasRequired(props: seq<Property>)
  {
    exists i :: 0 <= i < |props| && IsRequired(props[i])
  }

  lemma HasRequiredIffIndices(props: seq<Property>)
    ensures HasRequired(props) <==> RequiredIndices(props) != {}
  {
    if HasRequired(props) {
      var i :| 0 <= i < |props| && IsRequired(props[i]);
      assert i in RequiredIndices(props);
    }
  }

  /** A builder field. `B` is how a held nested builder is represented: a
      `NestedBuilder` object in the builder class, the builder's properties
      in the abstract state. */
  datatype Field<B> =
    | PlainField(value: Option<Val>)
    | BuildableField(held: Held<B>)
    | SetField(sorted: Option<SortedSetValue>)

  /** The abstract state of a generated builder: its fields and
      `_unsetProperties`, the required properties not yet set, given by
      position. */
  datatype State = State(fields: seq<Field<NestedValue>>, unset: set<nat>)

  /** The outcome of a builder call together with the state it leaves. */
  datatype Step = Step(state: State, outcome: Outcome)

  /** Field `f` is the kind of field property `p` declares. */
  predicate SameShape<B>(p: Property, f: Field<B>)
  {
    match p.kind
    case Buildable(_) => f.BuildableField?
    case SortedSet(_) => f.SetField?
    case _ => f.PlainField?
  }

  predicate Aligned<B>(props: seq<Property>, fields: seq<Field<B>>)
  {
    |fields| == |props| && forall i :: 0 <= i < |fields| ==> SameShape(props[i], fields[i])
  }

  /** Field `f` is the kind of field `p` declares, and a set it holds is in
      order. */
  ghost predicate Fits<B>(p: Property, f: Field<B>)
  {
    SameShape(p, f) && (f.SetField? && f.sorted.Some? ==> WellFormed(f.sorted.value))
  }

  ghost predicate Shaped<B>(props: seq<Property>, fields: seq<Field<B>>)
  {
    |fields| == |props| && forall i :: 0 <= i < |fields| ==> Fits(props[i], fields[i])
  }

  /** The states a builder can be in: fields shaped by their properties,
      only required properties recorded as unset, and every plain property
      that is not unset holding a non-null value (its setter rejects
      `null`). */
  ghost predicate StateOk(props: seq<Property>, s: State)
  {
    Shaped(props, s.fields)
    && s.unset <= RequiredIndices(props)
    && forall i :: 0 <= i < |s.fields| && s.fields[i].PlainField? && i !in s.unset ==> s.fields[i].value.Some?
  }

  /** The Java zero a plain field is declared with. */
  function ZeroOf(p: Property): Option<Val>
  {
    if p.primitive then Some(Num(0)) else None
  }

  /** The builder's field initialisers: plain fields hold their Java zero,
      buildable and set fields `null`, and `_unsetProperties` is
      `EnumSet.allOf` the required properties. */
  function GeneratedInit(props: seq<Property>): (s: State)
    ensures |s.fields| == |props|
    ensures s.unset == RequiredIndices(props)
  {
    State(
      seq(|props|, i requires 0 <= i < |props| =>
        match props[i].kind
        case Buildable(_) => BuildableField(Null)
        case SortedSet(_) => SetField(None)
        case _ => PlainField(ZeroOf(props[i]))),
      RequiredIndices(props))
  }

  // ---------------------------------------------------------------------
  // Generation choices

  /** How a user-written `equals`, `hashCode` or `toString` constrains the
      generated one: none written, a non-final one, or a final one. */
  datatype Underride = Absent | Overrideable | Final

  /** How client code obtains a new builder. */
  datatype BuilderFactory = NoArgsConstructor | BuilderMethod

  datatype Metadata = Metadata(
    properties: seq<Property>,
    /** The user declared a `Builder` subclass of the generated builder. */
    hasBuilder: bool,
    builderFactory: Option<BuilderFactory>,
    /** The annotated type declares `toBuilder()`. */
    hasToBuilder: bool,
    /** The user's builder can be subclassed with a no-argument constructor. */
    extensible: bool,
    interfaceType: bool,
    equalsUnderride: Underride,
    hashCodeUnderride: Underride,
    toStringUnderride: Underride,
    /** The state of a builder straight after `new Builder()`: the field
        initialisers followed by the user's constructor. */
    initial: State,
    /** Whether generated code can create such a fresh builder
        (`_defaults`) to compare against and reset from. */
    initialAvailable: bool)

  /** `_defaults`: a fresh builder, when one can be created. */
  function Defaults(md: Metadata): (d: Option<State>)
    ensures d.Some? <==> md.initialAvailable
    ensures d.Some? ==> d.value == md.initial
  {
    if md.initialAvailable then Some(md.initial) else None
  }

  /** The fresh builder is a builder state in which exactly the required
      properties are unset (see `DefaultProperty.NewBuilderState`). */
  ghost predicate MetadataOk(md: Metadata)
  {
    StateOk(md.properties, md.initial) && md.initial.unset == RequiredIndices(md.properties)
  }

  /** The states a builder of `md` reaches: a required property that is
      unset holds what it held in the fresh builder, since only `clear()`
      makes a property unset again, and it restores that value. */
  ghost predicate BuilderOk(md: Metadata, s: State)
  {
    StateOk(md.properties, s)
    && |md.initial.fields| == |md.properties|
    && forall j :: j in s.unset ==> j < |s.fields| && s.fields[j] == md.initial.fields[j]
  }

  // ---------------------------------------------------------------------
  // The generated value and partial types

  /** A final field of a value or partial. */
  datatype Slot =
    | PlainSlot(value: Option<Val>)
    | NestedSlot(nested: NestedValue)
    | SetSlot(sorted: SortedSetValue)

  /** An instance of the annotated type made by generated code: a `Value`
      from `build()` or a `Partial` from `buildPartial()`, which also keeps
      the required properties that were unset. */
  datatype Instance =
    | Value(slots: seq<Slot>)
    | Partial(slots: seq<Slot>, unset: set<nat>)

  ghost predicate SlotFits(p: Property, s: Slot)
  {
    match p.kind
    case Required => s.PlainSlot?
    case HasDefault => s.PlainSlot?
    case Buildable(_) => s.NestedSlot?
    case SortedSet(_) => s.SetSlot? && WellFormed(s.sorted)
  }

  function UnsetOf(x: Instance): set<nat>
  {
    if x.Partial? then x.unset else {}
  }

  /** The instances generated code can produce. */
  ghost predicate InstanceOk(props: seq<Property>, x: Instance)
  {
    |x.slots| == |props|
    && (forall i :: 0 <= i < |props| ==> SlotFits(props[i], x.slots[i]))
    && UnsetOf(x) <= RequiredIndices(props)
    && forall i :: 0 <= i < |props| && x.slots[i].PlainSlot? && i !in UnsetOf(x) ==> x.slots[i].value.Some?
  }

  /** The generated getter of property `i`: a partial throws
      `UnsupportedOperationException` for a required property it does not
      have; everything else returns the field. */
  function InstanceGet(props: seq<Property>, x: Instance, i: nat): (r: Result<Slot>)
    requires i < |x.slots| && i < |props|
    ensures r.Err? <==> x.Partial? && IsRequired(props[i]) && i in x.unset
    ensures r.Ok? ==> r.value == x.slots[i]
    ensures r.Err? ==> r.error == UnsupportedOperation(props[i].name + " not set")
  {
    if x.Partial? && IsRequired(props[i]) && i in x.unset then
      Err(UnsupportedOperation(props[i].name + " not set"))
    else
      Ok(x.slots[i])
  }
}
