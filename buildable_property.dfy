/**
 * The runtime contract of a buildable property: one whose type has a
 * builder of its own. The generated builder keeps an `Object` field that is
 * `null`, a built value, or the nested builder, and switches it in place.
 *
 * The nested type itself is not generated here. It is modelled by a small
 * builder of its own over named integer properties: merging overlays the
 * properties set on the source, `clear` forgets them all, and `build` fails
 * while one of its required properties is unset.
 */
module BuildableProperty {
  import opened Runtime

  type Key = string

  /** What the generated code relies on about the nested type. */
  datatype NestedType = NestedType(
    /** The nested type's required properties, in declaration order. */
    required: seq<Key>,
    /** Whether a value is turned into a builder with `value.toBuilder()`
        (otherwise with a new builder and `mergeFrom(value)`). */
    toBuilderAndMerge: bool,
    /** Whether merging from another nested builder goes through its
        `buildPartial()` (otherwise `mergeFrom(builder)` directly). */
    buildPartialAndMerge: bool)

  /** A value of the nested type: the properties set on it. */
  datatype NestedValue = NestedValue(entries: map<Key, int>)

  /** The nested type's required properties not set in `entries`, in
      declaration order. */
  function Missing(t: NestedType, entries: map<Key, int>): (m: seq<Key>)
    ensures forall k :: k in m <==> k in t.required && k !in entries
  {
    Unset(t.required, entries)
  }

  function Unset(keys: seq<Key>, entries: map<Key, int>): (m: seq<Key>)
    ensures forall k :: k in m <==> k in keys && k !in entries
  {
    if |keys| == 0 then []
    else (if keys[0] in entries then [] else [keys[0]]) + Unset(keys[1..], entries)
  }

  /** The nested builder's `build()`. */
  function NestedBuild(t: NestedType, entries: map<Key, int>): (r: Result<NestedValue>)
    ensures r.Ok? <==> forall k :: k in t.required ==> k in entries
    ensures r.Ok? ==> r.value.entries == entries
    ensures r.Err? ==> r.error.IllegalState?
  {
    var missing := Missing(t, entries);
    if |missing| == 0 then Ok(NestedValue(entries))
    else
      assert missing[0] in missing;
      Err(IllegalState("Not set: " + ShowList(missing)))
  }

  /** A builder of the nested type. */
  class NestedBuilder {
    const nestedType: NestedType
    var entries: map<Key, int>

    constructor (t: NestedType)
      ensures nestedType == t && entries == map[]
    {
      nestedType := t;
      entries := map[];
    }

    method Clear()
      modifies this
      ensures entries == map[]
    {
      entries := map[];
    }

    method MergeFromValue(v: NestedValue)
      modifies this
      ensures entries == old(entries) + v.entries
    {
      entries := entries + v.entries;
    }

    method MergeFromBuilder(other: NestedBuilder)
      modifies this
      ensures entries == old(entries) + old(other.entries)
    {
      entries := entries + other.entries;
    }

    method Build() returns (r: Result<NestedValue>)
      ensures r == NestedBuild(nestedType, entries)
    {
      r := NestedBuild(nestedType, entries);
    }

    method BuildPartial() returns (v: NestedValue)
      ensures v.entries == entries
    {
      v := NestedValue(entries);
    }
  }

  /** `value.toBuilder()` of the nested type. */
  method ToBuilder(t: NestedType, v: NestedValue) returns (b: NestedBuilder)
    ensures fresh(b) && b.nestedType == t && b.entries == v.entries
  {
    b := new NestedBuilder(t);
    b.MergeFromValue(v);
  }

  // ---------------------------------------------------------------------
  // The builder field

  /** The `Object` field of a buildable property: `null`, a value, or a
      nested builder `B` (a `NestedBuilder` object in the builder, the
      nested builder's properties in the abstract state). */
  datatype Held<B> = Null | Built(value: NestedValue) | InProgress(builder: B)

  /** The abstract field: a nested builder is represented by what its
      `buildPartial()` would return. */
  type HeldState = Held<NestedValue>

  /** The properties of the builder `getXBuilder()` returns: a new builder
      for `null`, the value's properties for a value (by either conversion),
      and the held builder itself otherwise. */
  function BuilderOf(h: HeldState): NestedValue
  {
    match h
    case Null => NestedValue(map[])
    case Built(v) => v
    case InProgress(b) => b
  }

  /** `setX(value)`: a `null` or value field takes the value; a held
      builder is cleared and the value merged into it, so that a caller
      keeping that builder sees the new properties. */
  function SetHeld(h: HeldState, v: NestedValue): (r: HeldState)
  {
    match h
    case InProgress(_) => InProgress(NestedValue(map[] + v.entries))
    case _ => Built(v)
  }

  /** `getXBuilder()`: the field ends up holding the builder. */
  function GetBuilderHeld(h: HeldState): (r: HeldState)
  {
    InProgress(BuilderOf(h))
  }

  /** `mergeFrom(value)`, for this property: a `null` field takes the
      value's property value; otherwise it is merged into the builder. */
  function MergeValueHeld(h: HeldState, v: NestedValue): (r: HeldState)
  {
    if h.Null? then Built(v) else InProgress(NestedValue(BuilderOf(h).entries + v.entries))
  }

  /** `mergeFrom(builder)`, for this property: nothing to merge from a
      `null` field; a value is merged as above; a builder is merged into
      this property's builder. */
  function MergeBuilderHeld(h: HeldState, template: HeldState): (r: HeldState)
  {
    match template
    case Null => h
    case Built(v) => MergeValueHeld(h, v)
    case InProgress(tb) => InProgress(NestedValue(BuilderOf(h).entries + tb.entries))
  }

  /** The partial's `toBuilder()`, for this property: the value is merged
      into the new builder's `getXBuilder()`. */
  function SetFromPartialHeld(h: HeldState, v: NestedValue): (r: HeldState)
  {
    InProgress(NestedValue(BuilderOf(h).entries + v.entries))
  }

  /** `clear()`, for this property: a `null` or value field becomes `null`;
      a held builder is cleared and kept. */
  function ClearHeld(h: HeldState): (r: HeldState)
  {
    if h.InProgress? then InProgress(NestedValue(map[])) else Null
  }

  /** The value `build()` stores: a new nested builder's `build()` for
      `null`, the value itself, or the held builder's `build()`. */
  function FinalHeld(t: NestedType, h: HeldState): Result<NestedValue>
  {
    match h
    case Null => NestedBuild(t, map[])
    case Built(v) => Ok(v)
    case InProgress(b) => NestedBuild(t, b.entries)
  }

  /** The value `buildPartial()` stores: the same with `buildPartial()`,
      which never fails. */
  function PartialHeld(h: HeldState): NestedValue
  {
    BuilderOf(h)
  }

  /** `mutateX(mutator)`: the builder is fetched (and so held), then handed
      to the mutator; a `null` mutator throws after that. */
  function MutateHeld(h: HeldState, mutator: Option<map<Key, int> -> map<Key, int>>): (HeldState, Outcome)
  {
    if mutator.None? then (GetBuilderHeld(h), Thrown(NullPointer))
    else (InProgress(NestedValue(mutator.value(BuilderOf(h).entries))), Done)
  }

  // ---------------------------------------------------------------------
  // Lemmas

  /** The two ways of turning a value into a builder agree: `toBuilder()`
      and a new builder with `mergeFrom(value)` are two distinct builders
      holding exactly the value's properties. */
  method ConversionsAgree(t: NestedType, v: NestedValue) returns (viaToBuilder: NestedBuilder, viaMerge: NestedBuilder)
    ensures viaToBuilder != viaMerge
    ensures viaToBuilder.nestedType == viaMerge.nestedType == t
    ensures viaToBuilder.entries == viaMerge.entries == v.entries
  {
    viaToBuilder := ToBuilder(t, v);
    viaMerge := new NestedBuilder(t);
    viaMerge.MergeFromValue(v);
    assert map[] + v.entries == v.entries;
  }

  /** What was set is what `buildPartial()` returns, and what `build()`
      returns whenever the value set was complete; a value set on a
      `null` or value field is stored as is. */
  lemma SetThenBuild(t: NestedType, h: HeldState, v: NestedValue)
    ensures PartialHeld(SetHeld(h, v)) == v
    ensures NestedBuild(t, v.entries).Ok? ==> FinalHeld(t, SetHeld(h, v)) == Ok(v)
    ensures !h.InProgress? ==> FinalHeld(t, SetHeld(h, v)) == Ok(v)
  {
    assert map[] + v.entries == v.entries;
  }

  /** Merging a value overlays its properties on what the field held. */
  lemma MergeValueOverlays(h: HeldState, v: NestedValue)
    ensures PartialHeld(MergeValueHeld(h, v)).entries == PartialHeld(h).entries + v.entries
  {
    if h.Null? {
      assert map[] + v.entries == v.entries;
    }
  }

  /** Merging a builder overlays the properties it holds; merging from a
      `null` field changes nothing. */
  lemma MergeBuilderOverlays(h: HeldState, template: HeldState)
    ensures template.Null? ==> MergeBuilderHeld(h, template) == h
    ensures PartialHeld(MergeBuilderHeld(h, template)).entries
            == PartialHeld(h).entries + PartialHeld(template).entries
  {
    match template {
      case Null =>
        assert PartialHeld(h).entries + map[] == PartialHeld(h).entries;
      case Built(v) =>
        MergeValueOverlays(h, v);
      case InProgress(_) =>
    }
  }

  /** `clear` is idempotent and leaves nothing set; it keeps a held builder
      in place. */
  lemma ClearHeldSpec(h: HeldState)
    ensures ClearHeld(ClearHeld(h)) == ClearHeld(h)
    ensures PartialHeld(ClearHeld(h)).entries == map[]
    ensures ClearHeld(h).InProgress? <==> h.InProgress?
  {
  }

  /** `build()` fails exactly when the nested value is missing one of its
      own required properties, and then with `IllegalStateException`. */
  lemma FinalHeldFails(t: NestedType, h: HeldState)
    ensures FinalHeld(t, h).Err? <==>
      !h.Built? && exists k :: k in t.required && k !in PartialHeld(h).entries
    ensures FinalHeld(t, h).Err? ==> FinalHeld(t, h).error.IllegalState?
    ensures FinalHeld(t, h).Ok? ==> FinalHeld(t, h).value == PartialHeld(h)
  {
  }

  /** Fetching the builder changes no property: `buildPartial()` is the
      same before and after. */
  lemma GetBuilderKeepsValue(h: HeldState)
    ensures PartialHeld(GetBuilderHeld(h)) == PartialHeld(h)
    ensures GetBuilderHeld(GetBuilderHeld(h)) == GetBuilderHeld(h)
  {
  }
}
