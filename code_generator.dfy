/**
 * What `CodeGenerator.writeBuilderSource` chooses to emit for an annotated
 * type: which members the generated builder, value and partial classes
 * have and which variant of each. The text itself is not modelled; each
 * decision is tied to the runtime behaviour it produces (module Generated).
 */
module CodeGenerator {
  import opened Runtime
  import opened TypeModel
  import opened Generated
  import BuilderLaws

  /** `implements` for an interface type, `extends` for a class. */
  datatype Supertype = Implements | Extends

  /** The body of a generated `toBuilder()`. */
  datatype ToBuilderBody =
    /** `new Builder().mergeFrom(this)` */
    | MergeIntoNew
    /** a `PartialBuilder` (whose `build()` is `buildPartial()`) with every
        property the partial has copied in */
    | CopyIntoPartialBuilder
    | ThrowUnsupported

  /** The generated value type's `equals`. */
  datatype ValueEquals =
    /** field by field */
    | Fieldwise
    /** `!(obj instanceof Partial) && super.equals(obj)` */
    | NotPartialThenSuper
    /** none: the user's final `equals` is inherited */
    | Inherited

  datatype ValueClass = ValueClass(
    supertype: Supertype,
    toBuilder: Option<ToBuilderBody>,
    equalsMethod: ValueEquals,
    hashCodeMethod: bool,
    toStringMethod: bool)

  datatype PartialClass = PartialClass(
    supertype: Supertype,
    /** the partial keeps a clone of `_unsetProperties` */
    unsetField: bool,
    /** per property: the getter throws when the property is unset */
    getterChecks: seq<bool>,
    /** the nested `PartialBuilder` class */
    partialBuilderClass: bool,
    toBuilder: Option<ToBuilderBody>,
    /** `Some(compareUnset)`: a generated `equals`, which also compares the
        unset sets when `compareUnset` */
    equalsMethod: Option<bool>,
    /** `Some(hashUnset)`: a generated `hashCode`, hashing the unset set too
        when `hashUnset` */
    hashCodeMethod: Option<bool>,
    toStringMethod: bool)

  datatype BuilderSource =
    /** a placeholder class for a type without a user-declared builder */
    | Stub
    | BuilderClass(
        /** the static `from(value)` */
        fromMethod: bool,
        /** the constants of the property enum, as property positions */
        propertyEnum: Option<seq<nat>>,
        /** `_unsetProperties = EnumSet.allOf(...)` */
        unsetField: bool,
        /** `build()` checks `_unsetProperties.isEmpty()` */
        buildChecksUnset: bool,
        /** `clear()` refills `_unsetProperties` from `_defaults` */
        clearResetsUnset: bool,
        /** `buildPartial()`'s documentation describes the partial's
            `toBuilder()` */
        buildPartialDocumentsToBuilder: bool,
        valueClass: ValueClass,
        partialClass: PartialClass)

  /** `extending`. */
  function Extending(interfaceType: bool): (r: Supertype)
    ensures r.Implements? <==> interfaceType
  {
    if interfaceType then Implements else Extends
  }

  // ---------------------------------------------------------------------
  // The property enum

  /** `addPropertyEnum`: one constant per required property, in declaration
      order, and nothing else. */
  method PropertyEnum(props: seq<Property>) returns (constants: seq<nat>)
    ensures Increasing(constants)
    ensures forall j :: j in constants <==> j in RequiredIndices(props)
  {
    constants := [];
    var i := 0;
    while i < |props|
      invariant 0 <= i <= |props|
      invariant Increasing(constants)
      invariant forall a :: 0 <= a < |constants| ==> constants[a] < i
      invariant forall j :: j in constants <==> j < i && j in RequiredIndices(props)
    {
      if IsRequired(props[i]) {
        constants := constants + [i];
      }
      i := i + 1;
    }
  }

  /** The unset set of a fresh builder prints as the enum's constants, in
      order: `Not set: [name, age]` for a new `Person.Builder`. Here
      `constants` are the required positions from `k` on, increasing. */
  lemma FreshUnsetNames(props: seq<Property>, constants: seq<nat>, k: nat)
    requires k <= |props| && Increasing(constants)
    requires forall a :: 0 <= a < |constants| ==> k <= constants[a] < |props| && IsRequired(props[constants[a]])
    requires forall j :: k <= j < |props| && IsRequired(props[j]) ==> j in constants
    ensures UnsetNames(props, RequiredIndices(props), k) == PositionNames(props, constants)
  {
    BuilderLaws.UnsetNamesInOrder(props, RequiredIndices(props), k, constants);
  }

  /** A type with no required property has no property enum and no unset
      field, and loses nothing by it: no builder state has an unset
      property, so `build()` needs no check. */
  lemma NoRequiredNoUnset(md: Metadata, s: State)
    requires !HasRequired(md.properties) && BuilderOk(md, s)
    ensures s.unset == {}
    ensures forall j :: 0 <= j < |md.properties| ==> InstanceGet(md.properties, BuildPartial(md, s), j).Ok?
  {
    HasRequiredIffIndices(md.properties);
  }

  // ---------------------------------------------------------------------
  // buildPartial's documentation

  /** A `java.util.Optional` reference: its identity and its content. */
  datatype OptionalRef = OptionalRef(identity: nat, content: Option<BuilderFactory>)

  /** The condition guarding the paragraph about a partial's `toBuilder()`
      in `buildPartial()`'s documentation, as written: the stored optional
      is compared with `==` to a new `Optional.of(NO_ARGS_CONSTRUCTOR)`,
      which compares identities. `created` is the identity the new optional
      receives. */
  function PartialDocConditionAsWritten(hasToBuilder: bool, stored: OptionalRef, created: nat): bool
  {
    hasToBuilder && stored == OptionalRef(created, Some(NoArgsConstructor))
  }

  /** A newly created object never has the identity of one that already
      exists, so the documentation paragraph is never emitted, even for a
      type with `toBuilder()` whose builder has a no-argument constructor. */
  lemma PartialDocNeverEmitted(hasToBuilder: bool, stored: OptionalRef, created: nat)
    requires created != stored.identity
    ensures !PartialDocConditionAsWritten(hasToBuilder, stored, created)
    ensures stored.content == Some(NoArgsConstructor) && hasToBuilder ==>
      PartialDocCondition(Metadata([], true, stored.content, hasToBuilder, true, false,
        Absent, Absent, Absent, State([], {}), true))
  {
  }

  /** The condition as evidently intended: the optional's content is
      compared. */
  predicate PartialDocCondition(md: Metadata)
  {
    md.hasToBuilder && md.builderFactory == Some(NoArgsConstructor)
  }

  /** Whenever the paragraph is emitted, the type has a `toBuilder()` on its
      value that merges into a new builder, and on its partial one that is
      generated too. What the paragraph says, a builder whose `build()`
      returns another partial, holds when the builder is extensible; for a
      builder that is not, the partial's `toBuilder()` throws instead. */
  lemma PartialDocConditionSpec(md: Metadata)
    ensures PartialDocCondition(md) <==> md.hasToBuilder && md.builderFactory == Some(NoArgsConstructor)
    ensures PartialDocCondition(md) ==>
      WriteValueClass(md).toBuilder == Some(MergeIntoNew) && WritePartialClass(md).toBuilder.Some?
    ensures PartialDocCondition(md) && md.extensible ==>
      WritePartialClass(md).partialBuilderClass && WritePartialClass(md).toBuilder == Some(CopyIntoPartialBuilder)
    ensures PartialDocCondition(md) && !md.extensible ==>
      !WritePartialClass(md).partialBuilderClass && WritePartialClass(md).toBuilder == Some(ThrowUnsupported)
  {
  }

  // ---------------------------------------------------------------------
  // The value and partial classes

  /** `addValueType`. */
  function WriteValueClass(md: Metadata): (c: ValueClass)
    ensures c.supertype.Implements? <==> md.interfaceType
    ensures c.toBuilder.Some? <==> md.hasToBuilder
    ensures c.toBuilder == Some(MergeIntoNew) <==> md.hasToBuilder && md.builderFactory.Some?
    ensures c.toBuilder != Some(CopyIntoPartialBuilder)
    ensures c.equalsMethod == Fieldwise <==> md.equalsUnderride == Absent
    ensures c.equalsMethod == NotPartialThenSuper <==> md.equalsUnderride == Overrideable
    ensures c.equalsMethod == Inherited <==> md.equalsUnderride == Final
    ensures c.hashCodeMethod <==> md.hashCodeUnderride == Absent
    ensures c.toStringMethod <==> md.toStringUnderride == Absent
  {
    ValueClass(
      Extending(md.interfaceType),
      if !md.hasToBuilder then None
      else if md.builderFactory.Some? then Some(MergeIntoNew)
      else Some(ThrowUnsupported),
      match md.equalsUnderride
      case Absent => Fieldwise
      case Overrideable => NotPartialThenSuper
      case Final => Inherited,
      md.hashCodeUnderride == Absent,
      md.toStringUnderride == Absent)
  }

  /** `addPartialType` together with `addPartialToBuilderMethod`. */
  function WritePartialClass(md: Metadata): (c: PartialClass)
    ensures c.supertype.Implements? <==> md.interfaceType
    ensures c.unsetField <==> RequiredIndices(md.properties) != {}
    ensures |c.getterChecks| == |md.properties|
    ensures forall j :: 0 <= j < |md.properties| ==> (c.getterChecks[j] <==> j in RequiredIndices(md.properties))
    ensures c.partialBuilderClass <==> md.hasToBuilder && md.extensible
    ensures c.partialBuilderClass ==> c.toBuilder == Some(CopyIntoPartialBuilder)
    ensures c.toBuilder.Some? <==> md.hasToBuilder
    ensures c.toBuilder != Some(MergeIntoNew)
    ensures c.equalsMethod.None? <==> md.equalsUnderride == Final
    ensures c.hashCodeMethod.None? <==> md.hashCodeUnderride == Final
    ensures c.toStringMethod <==> md.toStringUnderride != Final
    ensures c.equalsMethod.Some? ==> (c.equalsMethod.value <==> c.unsetField)
    ensures c.hashCodeMethod.Some? ==> (c.hashCodeMethod.value <==> c.unsetField)
  {
    HasRequiredIffIndices(md.properties);
    var req := HasRequired(md.properties);
    PartialClass(
      Extending(md.interfaceType),
      req,
      seq(|md.properties|, j requires 0 <= j < |md.properties| => IsRequired(md.properties[j])),
      md.hasToBuilder && md.extensible,
      if !md.hasToBuilder then None
      else if md.extensible then Some(CopyIntoPartialBuilder)
      else Some(ThrowUnsupported),
      if md.equalsUnderride == Final then None else Some(req),
      if md.hashCodeUnderride == Final then None else Some(req),
      md.toStringUnderride != Final)
  }

  /** `writeBuilderSource`. The caller passes the property enum's constants
      as `PropertyEnum` returns them. The paragraph about the partial's
      `toBuilder()` in `buildPartial()`'s documentation is guarded by the
      identity comparison `PartialDocConditionAsWritten`, which
      `PartialDocNeverEmitted` shows is never true, so it is never emitted. */
  function WriteBuilderSource(md: Metadata, constants: seq<nat>): (src: BuilderSource)
    ensures src.Stub? <==> !md.hasBuilder
  {
    if !md.hasBuilder then Stub
    else
      var req := HasRequired(md.properties);
      BuilderClass(
        md.builderFactory.Some?,
        if req then Some(constants) else None,
        req,
        req,
        req && md.initialAvailable,
        false,
        WriteValueClass(md),
        WritePartialClass(md))
  }

  /** The enum and the unset field are emitted together, exactly when some
      property is required; `build()` checks and the partial keeps the
      unset set under the same condition; the enum then holds the required
      properties and `clear()` refills the unset set only when a fresh
      builder is available. The value and partial classes are the ones
      `WriteValueClass` and `WritePartialClass` describe, and the
      documentation paragraph about the partial's `toBuilder()` is never
      emitted. */
  lemma WriteBuilderSourceSpec(md: Metadata, constants: seq<nat>)
    requires md.hasBuilder
    requires forall j :: j in constants <==> j in RequiredIndices(md.properties)
    ensures var src := WriteBuilderSource(md, constants);
      (src.propertyEnum.Some? <==> RequiredIndices(md.properties) != {})
      && src.unsetField == src.propertyEnum.Some? == src.buildChecksUnset == src.partialClass.unsetField
      && (src.propertyEnum.Some? ==> forall j :: j in src.propertyEnum.value <==> 0 <= j < |md.properties| && IsRequired(md.properties[j]))
      && (src.clearResetsUnset ==> src.unsetField && md.initialAvailable)
      && (src.fromMethod <==> md.builderFactory.Some?)
      && src.valueClass == WriteValueClass(md)
      && src.partialClass == WritePartialClass(md)
      && !src.buildPartialDocumentsToBuilder
  {
    HasRequiredIffIndices(md.properties);
  }

  /** The generator's documentation flag is the as-written condition: for
      the optional the metadata stores and any newly created optional, the
      flag equals `PartialDocConditionAsWritten`, even when the evidently
      intended `PartialDocCondition` holds. */
  lemma BuilderSourceDocAsWritten(md: Metadata, constants: seq<nat>, stored: OptionalRef, created: nat)
    requires md.hasBuilder && stored.content == md.builderFactory && created != stored.identity
    ensures WriteBuilderSource(md, constants).buildPartialDocumentsToBuilder
            == PartialDocConditionAsWritten(md.hasToBuilder, stored, created)
  {
    PartialDocNeverEmitted(md.hasToBuilder, stored, created);
  }

  // ---------------------------------------------------------------------
  // What each variant does at run time

  /** The value's `equals` variants: a field-by-field `equals` compares
      the fields of two values and nothing else; the `instanceof` guard
      refuses every partial whatever the user's `equals` says; an inherited
      `equals` is the user's. */
  lemma ValueEqualsVariants(md: Metadata, a: seq<Slot>, obj: Instance, userEquals: bool)
    ensures WriteValueClass(md).equalsMethod == Fieldwise ==>
      Equals(md, Value(a), obj, userEquals) == (obj.Value? && SlotsEqual(a, obj.slots))
    ensures WriteValueClass(md).equalsMethod == NotPartialThenSuper ==>
      (obj.Partial? ==> !Equals(md, Value(a), obj, userEquals))
      && (obj.Value? ==> Equals(md, Value(a), obj, userEquals) == userEquals)
    ensures WriteValueClass(md).equalsMethod == Inherited ==>
      Equals(md, Value(a), obj, userEquals) == userEquals
  {
  }

  /** The partial's `equals`: when generated, never true for a value, and
      it compares unset sets exactly when the class keeps them. */
  lemma PartialEqualsVariants(md: Metadata, a: seq<Slot>, u: set<nat>, obj: Instance, userEquals: bool)
    ensures var c := WritePartialClass(md);
      (c.equalsMethod.None? ==> Equals(md, Partial(a, u), obj, userEquals) == userEquals)
      && (c.equalsMethod.Some? ==>
            (obj.Value? ==> !Equals(md, Partial(a, u), obj, userEquals))
            && (obj.Partial? && SlotsEqual(a, obj.slots) ==>
                  (Equals(md, Partial(a, u), obj, userEquals) <==> !c.equalsMethod.value || u == obj.unset)))
  {
  }

  /** Each emitted getter check is the one that makes the partial's getter
      throw. */
  lemma PartialGetterChecks(md: Metadata, p: Instance, i: nat)
    requires p.Partial? && i < |p.slots| && i < |md.properties|
    ensures InstanceGet(md.properties, p, i).Err? <==> WritePartialClass(md).getterChecks[i] && i in p.unset
  {
  }

  /** The value's `toBuilder()` throws exactly when its body is the
      `throw`, and otherwise starts from a new builder. */
  lemma ValueToBuilderVariants(md: Metadata, v: Instance)
    requires MetadataOk(md) && InstanceOk(md.properties, v) && md.hasToBuilder
    ensures ValueToBuilder(md, v) == Err(UnsupportedOperation("")) <==>
      WriteValueClass(md).toBuilder == Some(ThrowUnsupported)
  {
  }

  /** The partial's `toBuilder()` throws exactly when no `PartialBuilder`
      class is emitted. */
  lemma PartialToBuilderVariants(md: Metadata, p: Instance)
    requires MetadataOk(md) && InstanceOk(md.properties, p) && md.hasToBuilder
    ensures PartialToBuilder(md, p).Err? <==> !WritePartialClass(md).partialBuilderClass
    ensures PartialToBuilder(md, p).Err? <==> WritePartialClass(md).toBuilder == Some(ThrowUnsupported)
  {
  }
}
