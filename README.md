# FreeBuilder: the generated builder, value and partial

FreeBuilder is an annotation processor. For an abstract type annotated with
`@FreeBuilder` it writes a `Type_Builder` class that holds:

- a field per property;
- `_unsetProperties`, the required properties not yet set;
- setters, getters, mappers and collection methods for each property;
- the builder-wide `mergeFrom`, `clear`, `build` and `buildPartial`;
- a nested `Value` type and a nested `Partial` type.

This project models two things:

- The choices `CodeGenerator.writeBuilderSource` makes about which of these
  members to emit, and in which variant (module `CodeGenerator`).
- What the emitted code then does at run time. This covers three kinds of
  property:
  - a default property, either required or given a default by the builder
    constructor (module `DefaultProperty`);
  - a buildable property, whose type has a builder of its own (module
    `BuildableProperty`);
  - a sorted-set property backed by a `TreeSet` (module
    `SortedSetProperty`). Its elements are integers. The model covers
    both branches of the generated code: a reference element type, whose
    `addX` and `removeX` reject `null`, and an element type that unboxes
    (`Integer`), whose `addX` and `removeX` take an `int`. The set a
    mutator is handed is a `CheckedNavigableSet`, which is not part of
    this model. The class `CheckedSet` (module `CheckedSet`), a model of
    the checked set in `excerpt/CheckedSet.java`, stands in for it: every
    element added goes through the property's `addX`.

The builder is an object, the class `Builders.Builder`. It has a field per
property, the unset set, and held nested builders as objects of their own.
Each of its methods is proved against a function on its abstract state,
`View()`:

- the per-property functions in `DefaultProperty`, `BuildableProperty` and
  `SortedSetProperty`;
- the builder-wide functions in `Generated`, which fold over the properties
  in declaration order.

The properties the generated code promises are proved as lemmas about those
functions:

- modules `BuilderLaws` and `RoundTrip`: `Builder.from(v).build()` equals
  `v`, and a partial's `toBuilder().build()` equals the partial;
- module `CodeGenerator`: each emitted variant produces the runtime behaviour
  it is meant to.

Module `Scenario` proves facts about concrete builders of two types:

- `Person`, with a required `String name` and a required `int age`;
- `DataType`, with a required `int property`.

Source paths below are relative to the FreeBuilder repository root.

## Model

| member | source | states |
|---|---|---|
| SortedSetProperty.InsertSpec | src/main/java/org/inferred/freebuilder/processor/SortedSetProperty.java:222-251 | `addX(e)`: if no element compares equal to `e`, exactly `e` is added (size grows by one); otherwise the set is unchanged and keeps the earlier element. The set stays ordered either way. |
| SortedSetProperty.RemoveSpec | src/main/java/org/inferred/freebuilder/processor/SortedSetProperty.java:371-398 | `removeX(e)` keeps the set ordered and removes exactly the element that compares equal to `e`. If there is none, nothing changes. |
| SortedSetProperty.InsertAllKeepsOrder | src/main/java/org/inferred/freebuilder/processor/SortedSetProperty.java:344-355 | Adding a sequence keeps the set ordered. The comparator classes present afterwards are those already present plus those of the added elements. |
| SortedSetProperty.InsertAllFirstWins | src/main/java/org/inferred/freebuilder/processor/SortedSetProperty.java:357-369 | "Only the first duplicate element is added": after `addAll`, `x` is present iff `x` is the first element of its comparator class in the old contents followed by the added ones. |
| SortedSetProperty.InsertAllPresent | src/main/java/org/inferred/freebuilder/processor/SortedSetProperty.java:344-355 | Adding elements that are all already present (up to the comparator) changes nothing. |
| SortedSetProperty.InsertAllIdempotent | src/main/java/org/inferred/freebuilder/processor/SortedSetProperty.java:344-355 | Adding the same elements twice leaves the set as adding them once does. |
| SortedSetProperty.SetEqualsConsistentComparator | src/main/java/org/inferred/freebuilder/processor/CodeGenerator.java:361-387 | The value's `equals` compares set fields with `Set.equals`. Under a comparator consistent with equals, that is equality of the element sequences, in both directions. |
| SortedSetProperty.SetEqualsByMagnitudeExample | src/main/java/org/inferred/freebuilder/processor/CodeGenerator.java:361-387 | Under a comparator inconsistent with equals, the sets {3} and {-3} are `equals` without being the same set. |
| SortedSetProperty.Materialise | src/main/java/org/inferred/freebuilder/processor/SortedSetProperty.java:253-265 | A `null` field becomes an empty set in natural order. An existing set is kept. |
| SortedSetProperty.ApplyOpsKeepsOrder | src/main/java/org/inferred/freebuilder/processor/SortedSetProperty.java:400-439 | Whatever adds and removes a mutator makes, the set stays ordered and keeps its comparator. |
| SortedSetProperty.MergeElementsKeepsOrder | src/main/java/org/inferred/freebuilder/processor/SortedSetProperty.java:540-545 | Merging another set's elements keeps the field ordered. |
| SortedSetProperty.AddAllKeepsOrder | src/main/java/org/inferred/freebuilder/processor/SortedSetProperty.java:267-309 | Varargs `add` and `addAll` keep the field ordered, including when they stop at a `null`. |
| SortedSetProperty.AddAllIsInsertAll | src/main/java/org/inferred/freebuilder/processor/SortedSetProperty.java:344-355 | `addAll` of non-null elements calls `addX` on each in turn. The result is the merge of those elements, and an empty source leaves a `null` field `null`. |
| SortedSetProperty.AddAllStopsAtNull | src/main/java/org/inferred/freebuilder/processor/SortedSetProperty.java:357-369 | A `null` element throws `NullPointerException`. The elements before it stay added. |
| SortedSetProperty.UnboxedAgreesOnNonNull | src/main/java/org/inferred/freebuilder/processor/SortedSetProperty.java:344-355 | For an element type that unboxes, `addAll` of non-null elements gives the same field and outcome as for a reference element type: the merge of the elements, with no exception. |
| SortedSetProperty.UnboxedStopsAtNull | src/main/java/org/inferred/freebuilder/processor/SortedSetProperty.java:344-355 | For an element type that unboxes, a `null` element throws `NullPointerException` while being unboxed. The elements before it stay added. With none before it, the field is left exactly as it was, even when it is `null`. |
| SortedSetProperty.LeadingNullBranchesDiffer | src/main/java/org/inferred/freebuilder/processor/SortedSetProperty.java:236-250 | A leading `null` into a builder whose set does not exist yet. For a reference element type, `addX` creates the set before its null check throws, so a later `setComparatorOfX` fails. For an element type that unboxes, the set stays `null` and `setComparatorOfX` still succeeds. |
| SortedSetProperty.SetComparatorOnlyFirst | src/main/java/org/inferred/freebuilder/processor/SortedSetProperty.java:177-220 | `setComparator` succeeds iff the set has not been created yet. It then leaves an empty set under the requested comparator (`null` means natural order); otherwise nothing changes. |
| SortedSetProperty.ComparatorFixedAfterAdd | src/main/java/org/inferred/freebuilder/processor/SortedSetProperty.java:177-251 | Once `addX` has run, whether or not it threw, `setComparator` throws. |
| SortedSetProperty.ClearSpec | src/main/java/org/inferred/freebuilder/processor/SortedSetProperty.java:441-467 | `clearX()` leaves a `null` field `null`. It empties an existing set and keeps its comparator, and clearing twice is clearing once. |
| SortedSetProperty.RemoveUndoesAdd | src/main/java/org/inferred/freebuilder/processor/SortedSetProperty.java:371-398 | Removing an element that was just added as new restores the set. |
| CheckedSet.CheckedSet.constructor | src/main/java/org/inferred/freebuilder/processor/excerpt/CheckedSet.java:37-40 | The adapter wraps the given backing set, and no element has been handed to the callback yet. |
| CheckedSet.CheckedSet.Iterator | src/main/java/org/inferred/freebuilder/processor/excerpt/CheckedSet.java:43-45 | Iteration yields the backing set's elements in comparator order. |
| CheckedSet.CheckedSet.Size | src/main/java/org/inferred/freebuilder/processor/excerpt/CheckedSet.java:47-49 | `size()` is the backing set's size. |
| CheckedSet.CheckedSet.Contains | src/main/java/org/inferred/freebuilder/processor/excerpt/CheckedSet.java:51-53 | `contains(e)` holds iff some backing element compares equal to `e`. |
| CheckedSet.CheckedSet.Accept | src/main/java/org/inferred/freebuilder/processor/SortedSetProperty.java:424-430 | The callback (the builder's `addX`) records `e` and inserts it into the backing set. |
| CheckedSet.CheckedSet.Add | src/main/java/org/inferred/freebuilder/processor/excerpt/CheckedSet.java:55-62 | `add(e)` returns true iff `e` is new. Only then is the callback invoked, exactly once. The backing set ends as `TreeSet.add` would leave it. |
| CheckedSet.CheckedSet.Remove | src/main/java/org/inferred/freebuilder/processor/excerpt/CheckedSet.java:64-66 | `remove(e)` goes straight to the backing set and returns whether `e` was there. The callback is not involved. |
| CheckedSet.ApplyThroughAdapter | src/main/java/org/inferred/freebuilder/processor/SortedSetProperty.java:424-430 | A mutator run through the adapter leaves the same ordered set as running it on the set directly. |
| BuildableProperty.NestedBuild | src/main/java/org/inferred/freebuilder/processor/BuildableProperty.java:195-197 | The nested `build()` succeeds iff every required nested property is set, and returns exactly those properties. Otherwise it throws `IllegalStateException`. |
| BuildableProperty.NestedBuilder.constructor | src/main/java/org/inferred/freebuilder/processor/BuildableProperty.java:160-192 | A new nested builder holds no properties. |
| BuildableProperty.NestedBuilder.Clear | src/main/java/org/inferred/freebuilder/processor/BuildableProperty.java:293-304 | The nested `clear()` forgets every property. |
| BuildableProperty.NestedBuilder.MergeFromValue | src/main/java/org/inferred/freebuilder/processor/BuildableProperty.java:241-248 | The nested `mergeFrom(value)` overlays the value's properties. |
| BuildableProperty.NestedBuilder.MergeFromBuilder | src/main/java/org/inferred/freebuilder/processor/BuildableProperty.java:251-274 | The nested `mergeFrom(builder)` overlays the other builder's properties. |
| BuildableProperty.NestedBuilder.Build | src/main/java/org/inferred/freebuilder/processor/BuildableProperty.java:195-197 | The nested builder's `build()` is `NestedBuild` of its properties. |
| BuildableProperty.NestedBuilder.BuildPartial | src/main/java/org/inferred/freebuilder/processor/BuildableProperty.java:200-202 | The nested `buildPartial()` never throws and returns the properties set. |
| BuildableProperty.ToBuilder | src/main/java/org/inferred/freebuilder/processor/BuildableProperty.java:160-192 | `value.toBuilder()` gives a fresh nested builder holding the value's properties. |
| BuildableProperty.ConversionsAgree | src/main/java/org/inferred/freebuilder/processor/BuildableProperty.java:160-192 | `toBuilder()` and a new builder given `mergeFrom(value)` are two distinct builders of the same type, and both hold exactly the value's properties. |
| BuildableProperty.SetThenBuild | src/main/java/org/inferred/freebuilder/processor/BuildableProperty.java:83-113 | After `setX(v)`, `buildPartial()` yields `v`, and so does `build()` when `v` is complete. A `null` or value field stores `v` as is. |
| BuildableProperty.MergeValueOverlays | src/main/java/org/inferred/freebuilder/processor/BuildableProperty.java:241-248 | `mergeFrom(value)` overlays the value's nested properties on what the field held. |
| BuildableProperty.MergeBuilderOverlays | src/main/java/org/inferred/freebuilder/processor/BuildableProperty.java:251-274 | `mergeFrom(builder)` overlays the template's nested properties. A `null` template field changes nothing. |
| BuildableProperty.ClearHeldSpec | src/main/java/org/inferred/freebuilder/processor/BuildableProperty.java:293-304 | `clear()` leaves nothing set and keeps a held builder in place. It is idempotent. |
| BuildableProperty.FinalHeldFails | src/main/java/org/inferred/freebuilder/processor/BuildableProperty.java:204-238 | `build()` of the property fails iff the field is not a built value and misses a required nested property. The failure is `IllegalStateException`; on success it returns what `buildPartial()` would. |
| BuildableProperty.GetBuilderKeepsValue | src/main/java/org/inferred/freebuilder/processor/BuildableProperty.java:160-192 | `getXBuilder()` changes no nested property. Calling it twice leaves the field as calling it once. |
| TypeModel.HasRequiredIffIndices | src/main/java/org/inferred/freebuilder/processor/CodeGenerator.java:573-574 | `anyMatch(IS_REQUIRED)` holds iff the set of required positions is non-empty. |
| TypeModel.GeneratedInit | src/main/java/org/inferred/freebuilder/processor/CodeGenerator.java:123-135 | The field initialisers give one field per property. `_unsetProperties` starts as exactly the required properties. |
| TypeModel.InstanceGet | src/main/java/org/inferred/freebuilder/processor/CodeGenerator.java:424-430 | A getter throws iff the instance is a partial, the property is required and it is unset. The exception is `UnsupportedOperationException("<name> not set")`; otherwise the getter returns the field. |
| DefaultProperty.Getter | src/main/java/org/inferred/freebuilder/processor/DefaultProperty.java:163-181 | `getX()` throws iff the property is required and unset, and then with `IllegalStateException("<name> not set")`. |
| DefaultProperty.MergeFromValue | src/main/java/org/inferred/freebuilder/processor/DefaultProperty.java:194-213 | Property `i`'s part of `mergeFrom(value)` touches only field `i`. It can throw only the setter's `NullPointerException` or the partial getter's `UnsupportedOperationException`. |
| DefaultProperty.MergeFromBuilder | src/main/java/org/inferred/freebuilder/processor/DefaultProperty.java:216-247 | Property `i`'s part of `mergeFrom(builder)` touches only field `i` and keeps a valid builder state. |
| DefaultProperty.SetFromPartial | src/main/java/org/inferred/freebuilder/processor/DefaultProperty.java:250-259 | The partial's `toBuilder()` copies property `i` touching only field `i`. |
| DefaultProperty.SetThenGet | src/main/java/org/inferred/freebuilder/processor/DefaultProperty.java:98-130 | `setX(v)` succeeds and then `getX()` returns `v`. The property is no longer unset and no other field changes. |
| DefaultProperty.SetNullRejected | src/main/java/org/inferred/freebuilder/processor/DefaultProperty.java:98-130 | `setX(null)` throws `NullPointerException` and leaves the builder unchanged. |
| DefaultProperty.MapperSpec | src/main/java/org/inferred/freebuilder/processor/DefaultProperty.java:132-161 | `mapX` works as follows: <ul><li>a `null` mapper throws `NullPointerException` first;</li><li>an unset required property throws `IllegalStateException("<name> not set")` and changes nothing;</li><li>a mapper returning `null` throws `NullPointerException`;</li><li>otherwise the getter afterwards returns the mapper's result.</li></ul> |
| DefaultProperty.MergeValueIntoFresh | src/main/java/org/inferred/freebuilder/processor/DefaultProperty.java:194-213 | Merging a value into a fresh builder leaves the getter returning the value's property. This holds whether or not the compare against `_defaults` skipped the setter. |
| DefaultProperty.MergeBuilderIntoFresh | src/main/java/org/inferred/freebuilder/processor/DefaultProperty.java:216-247 | Merging a template into a fresh builder leaves the property unset iff it is unset in the template. Otherwise it reads the same as in the template. |
| DefaultProperty.MergeValueOptional | src/main/java/org/inferred/freebuilder/processor/DefaultProperty.java:194-213 | In any builder, `mergeFrom(value)` skips a defaulted property, changing nothing, when the value holds what a fresh builder holds. Otherwise it stores the value's property in that field alone. Without a fresh builder it always stores it. |
| DefaultProperty.MergeValueRequired | src/main/java/org/inferred/freebuilder/processor/DefaultProperty.java:194-213 | For a required property, a partial lacking it throws `UnsupportedOperationException("<name> not set")` and changes nothing. A value equal to what a fresh builder already has set is skipped. Otherwise the value is stored and the property leaves the unset set. |
| DefaultProperty.MergeBuilderCopyOrSkip | src/main/java/org/inferred/freebuilder/processor/DefaultProperty.java:216-247 | In any builder, `mergeFrom(builder)` leaves the builder exactly as it was when the template lacks the required property or holds what a fresh builder has set. Otherwise it copies the template's field and the property leaves the unset set. |
| DefaultProperty.SetFromPartialRestores | src/main/java/org/inferred/freebuilder/processor/DefaultProperty.java:250-259 | Copying from a partial leaves the property unset iff the partial lacks it. Otherwise it reads the partial's value. |
| DefaultProperty.ClearRestoresFresh | src/main/java/org/inferred/freebuilder/processor/DefaultProperty.java:267-273 | With `_defaults`, `clear()` restores the fresh field and is idempotent. Without it, the field is left alone. |
| DefaultProperty.ConstructorKeepsRequiredUnset | src/main/java/org/inferred/freebuilder/processor/DefaultProperty.java:82-84 | Setter calls in the builder constructor on properties with defaults leave the unset set as it was. Each called field holds a non-null value, and fields not called are unchanged. |
| DefaultProperty.NewBuilderState | src/main/java/org/inferred/freebuilder/processor/DefaultProperty.java:82-84 | A new builder, made by the initialisers and then setter calls on every defaulted property, is a valid state. Exactly the required properties are unset in it. |
| Generated.MergeValueStep | src/main/java/org/inferred/freebuilder/processor/CodeGenerator.java:163-177 | One property's part of `mergeFrom(value)` touches only its own field. If it throws, it changed nothing, and the exception is a setter's or a partial getter's. |
| Generated.MergeValueFrom | src/main/java/org/inferred/freebuilder/processor/CodeGenerator.java:163-177 | The properties' parts run in order and stop at the first exception. The builder stays in a valid state, and only a setter or partial-getter exception escapes. |
| Generated.MergeFromValue | src/main/java/org/inferred/freebuilder/processor/CodeGenerator.java:163-177 | `mergeFrom(value)` keeps the builder valid and throws only a setter or partial-getter exception. |
| Generated.MergeBuilderStep | src/main/java/org/inferred/freebuilder/processor/CodeGenerator.java:179-194 | One property's part of `mergeFrom(builder)` touches only its own field and keeps the builder valid. |
| Generated.MergeBuilderFrom | src/main/java/org/inferred/freebuilder/processor/CodeGenerator.java:179-194 | The parts from property `k` on never throw and keep the builder valid. |
| Generated.MergeFromBuilder | src/main/java/org/inferred/freebuilder/processor/CodeGenerator.java:179-194 | `mergeFrom(builder)` never throws and keeps the builder valid. |
| Generated.Clear | src/main/java/org/inferred/freebuilder/processor/CodeGenerator.java:196-216 | `clear()` leaves a valid builder state. |
| Generated.UnsetNames | src/main/java/org/inferred/freebuilder/processor/CodeGenerator.java:155-158 | The list of unset names is empty iff no property from position `k` on is unset. |
| Generated.BuildPartial | src/main/java/org/inferred/freebuilder/processor/CodeGenerator.java:218-249 | `buildPartial()` returns a partial with one slot per field and a copy of the unset set. |
| Generated.From | src/main/java/org/inferred/freebuilder/processor/CodeGenerator.java:105-121 | `from(value)` is a new builder followed by `mergeFrom(value)`, and leaves a valid builder. |
| Generated.ValueToBuilder | src/main/java/org/inferred/freebuilder/processor/CodeGenerator.java:312-324 | The value's `toBuilder()` gives a valid builder when it succeeds. |
| Generated.SetFromPartialStep | src/main/java/org/inferred/freebuilder/processor/CodeGenerator.java:491-520 | One property's copy in the partial's `toBuilder()` touches only its own field and keeps the builder valid. |
| Generated.SetFromPartialFrom | src/main/java/org/inferred/freebuilder/processor/CodeGenerator.java:491-520 | The copies from property `k` on keep the builder valid. |
| Generated.PartialToBuilder | src/main/java/org/inferred/freebuilder/processor/CodeGenerator.java:491-520 | The partial's `toBuilder()` gives a valid builder when it succeeds. |
| BuilderLaws.FinalSlotsSpec | src/main/java/org/inferred/freebuilder/processor/CodeGenerator.java:287-298 | The value constructor succeeds iff every field's final value does. It then holds those values, in order. |
| BuilderLaws.UnsetNamesSpec | src/main/java/org/inferred/freebuilder/processor/CodeGenerator.java:155-158 | The names in the message are exactly the names of the unset properties. |
| BuilderLaws.UnsetNamesInOrder | src/main/java/org/inferred/freebuilder/processor/CodeGenerator.java:155-158 | For any unset set, listing the unset positions in increasing order, the message holds exactly their names, one for one and in declaration order. |
| BuilderLaws.FinalSlotSpec | src/main/java/org/inferred/freebuilder/processor/CodeGenerator.java:287-298 | A field's final value fails only for a buildable property whose nested value does not build. A plain field is copied as is. |
| BuilderLaws.BuildSpec | src/main/java/org/inferred/freebuilder/processor/CodeGenerator.java:143-161 | `build()` succeeds iff nothing is unset and every nested value builds. With something unset it throws `IllegalStateException("Not set: [..]")`, naming at least one property. |
| BuilderLaws.BuiltValueSpec | src/main/java/org/inferred/freebuilder/processor/CodeGenerator.java:287-298 | A built value is a well-formed value holding, field by field, the builder's final values. |
| BuilderLaws.BuildPartialSpec | src/main/java/org/inferred/freebuilder/processor/CodeGenerator.java:218-249 | `buildPartial()` never throws, and it is what `build()` returns on a partial's builder. Its getter throws `UnsupportedOperationException("<name> not set")` exactly for the unset properties, and otherwise returns what the builder held. |
| BuilderLaws.ClearSpec | src/main/java/org/inferred/freebuilder/processor/CodeGenerator.java:196-216 | `clear()` does the following: <ul><li>with `_defaults`, it restores the fresh builder's default fields and unset set;</li><li>without `_defaults`, it leaves those alone;</li><li>either way it empties nested builders and sets, and sets keep their comparators;</li><li>it is idempotent.</li></ul> |
| BuilderLaws.EqualsSpec | src/main/java/org/inferred/freebuilder/processor/CodeGenerator.java:326-344 | `equals` is reflexive. Unless the user's `equals` is final, a value never equals a partial and a partial never equals a value. |
| BuilderLaws.PartialEqualsComparesUnset | src/main/java/org/inferred/freebuilder/processor/CodeGenerator.java:459-465 | Two partials that differ only in their unset sets are not equal. |
| RoundTrip.InsertAllSame | src/main/java/org/inferred/freebuilder/processor/SortedSetProperty.java:513-537 | Adding an ordered set's elements one by one to an empty set, under a comparator consistent with `equals`, gives the same elements, and as many of them. |
| RoundTrip.SetCopy | src/main/java/org/inferred/freebuilder/processor/SortedSetProperty.java:513-537 | A set copied into a new builder's set (`null`, or empty under a comparator consistent with `equals`) keeps that set's comparator and has the same elements and size. |
| RoundTrip.SetCopyEquals | src/main/java/org/inferred/freebuilder/processor/SortedSetProperty.java:513-537 | A set copied into such a new builder's set `equals` the original, in both directions. |
| RoundTrip.SetCopyByMagnitudeCollapses | src/main/java/org/inferred/freebuilder/processor/SortedSetProperty.java:177-215 | Under a comparator inconsistent with `equals`, copying `[-3, 3]` into an empty set keeps one element, and the copy does not equal the original. |
| RoundTrip.ValueStepFromFresh | src/main/java/org/inferred/freebuilder/processor/CodeGenerator.java:163-177 | Assuming `Untouched` (the builder constructor leaves buildable fields `null` and adds no set element), one property's `mergeFrom(value)` on a field still as in a new builder succeeds. It copies the value's property and clears its unset bit. |
| RoundTrip.ValueFoldFromFresh | src/main/java/org/inferred/freebuilder/processor/CodeGenerator.java:163-177 | Assuming `Untouched` (the builder constructor leaves buildable fields `null` and adds no set element), `mergeFrom(value)` into a new builder succeeds, copies every property and leaves nothing unset. |
| RoundTrip.FromThenBuild | src/main/java/org/inferred/freebuilder/processor/CodeGenerator.java:105-121 | Assuming `Untouched` (the builder constructor leaves buildable fields `null` and adds no set element), `Builder.from(v).build()` succeeds, and its result equals `v` in both directions of `equals`. |
| RoundTrip.FromKeepsConstructorElements | src/main/java/org/inferred/freebuilder/processor/CodeGenerator.java:105-121 | When the builder constructor adds an element to a set, `from(v).build()` holds that element as well as `v`'s, so it does not equal `v`. |
| RoundTrip.BuildPartialMadeByBuilder | src/main/java/org/inferred/freebuilder/processor/CodeGenerator.java:218-249 | In every partial `buildPartial()` returns, an unset property holds what a new builder holds. |
| RoundTrip.PartialStepFromFresh | src/main/java/org/inferred/freebuilder/processor/CodeGenerator.java:491-520 | Assuming `Untouched` (the builder constructor leaves buildable fields `null` and adds no set element), one property's copy from a partial leaves it unset iff the partial lacks it, and otherwise copies it. |
| RoundTrip.PartialFoldFromFresh | src/main/java/org/inferred/freebuilder/processor/CodeGenerator.java:491-520 | Assuming `Untouched` (the builder constructor leaves buildable fields `null` and adds no set element), copying every property from a partial into a new builder gives the partial's unset set and copies the rest. |
| RoundTrip.PartialToBuilderThenBuild | src/main/java/org/inferred/freebuilder/processor/CodeGenerator.java:491-520 | Assuming `Untouched` (the builder constructor leaves buildable fields `null` and adds no set element), for an extensible builder the partial's `toBuilder().build()` returns a partial with the same unset set and equal fields. It equals the original in both directions. |
| CodeGenerator.PropertyEnum | src/main/java/org/inferred/freebuilder/processor/CodeGenerator.java:251-272 | The enum has one constant per required property, in declaration order, and nothing else. |
| Generated.PositionNames | src/main/java/org/inferred/freebuilder/processor/CodeGenerator.java:251-272 | The names of the properties at the given positions, one for one and in that order: how an `EnumSet` of the enum's constants prints. |
| CodeGenerator.FreshUnsetNames | src/main/java/org/inferred/freebuilder/processor/CodeGenerator.java:123-135 | A fresh builder's `_unsetProperties = EnumSet.allOf(Property)` prints as the enum's constants, in order. |
| CodeGenerator.NoRequiredNoUnset | src/main/java/org/inferred/freebuilder/processor/CodeGenerator.java:60-88 | With no required property there is no enum and no unset field, and nothing is lost. No builder state has an unset property, and no partial getter throws. |
| CodeGenerator.PartialDocNeverEmitted | src/main/java/org/inferred/freebuilder/processor/CodeGenerator.java:228-229 | As written, the `==` comparison with a new `Optional` is never true. The paragraph is therefore missing even when the intended condition holds. |
| CodeGenerator.PartialDocConditionSpec | src/main/java/org/inferred/freebuilder/processor/CodeGenerator.java:228-234 | The corrected condition holds iff the type has `toBuilder()` and a no-argument builder constructor. Then the value's `toBuilder()` merges into a new builder and the partial has a `toBuilder()` too. That one returns a `PartialBuilder` iff the builder is extensible, and throws otherwise. |
| CodeGenerator.WriteValueClass | src/main/java/org/inferred/freebuilder/processor/CodeGenerator.java:274-359 | The value type says `implements` iff the annotated type is an interface. It has `toBuilder()` iff the type declares it, merging into a new builder iff a builder factory is known. Its `equals` is field by field, `instanceof`-guarded or absent exactly as the user's `equals` is absent, overridable or final. `hashCode` and `toString` are emitted iff the user wrote none. |
| CodeGenerator.WritePartialClass | src/main/java/org/inferred/freebuilder/processor/CodeGenerator.java:389-520 | The partial says `implements` iff the type is an interface. It keeps the unset set iff some property is required, and its getter checks exactly the required properties. `PartialBuilder` exists iff the type has `toBuilder()` and the builder is extensible; then `toBuilder()` copies into it. `equals`, `hashCode` and `toString` are emitted unless the user's is final; the first two cover the unset set iff it exists. |
| CodeGenerator.WriteBuilderSource | src/main/java/org/inferred/freebuilder/processor/CodeGenerator.java:60-88 | A stub is written iff the type has no user-declared builder. |
| CodeGenerator.WriteBuilderSourceSpec | src/main/java/org/inferred/freebuilder/processor/CodeGenerator.java:60-88 | The following are emitted together, exactly when some property is required: the enum, the unset field, the `build()` check and the partial's unset copy. The enum then holds the required properties. `clear()` refills the unset set only with `_defaults`, and `from` exists iff there is a builder factory. The value and partial classes are those of `WriteValueClass` and `WritePartialClass`. The paragraph about the partial's `toBuilder()` in `buildPartial()`'s documentation is never emitted. |
| CodeGenerator.BuilderSourceDocAsWritten | src/main/java/org/inferred/freebuilder/processor/CodeGenerator.java:227-229 | The generator's documentation flag equals the as-written identity comparison for any newly created `Optional`, so it is false even when the type has `toBuilder()` and a no-argument builder constructor. |
| CodeGenerator.ValueEqualsVariants | src/main/java/org/inferred/freebuilder/processor/CodeGenerator.java:326-344 | Each value `equals` variant behaves as follows: <ul><li>field-by-field compares two values' fields only;</li><li>the `instanceof` guard refuses every partial and otherwise defers to the user;</li><li>inherited is the user's.</li></ul> |
| CodeGenerator.PartialEqualsVariants | src/main/java/org/inferred/freebuilder/processor/CodeGenerator.java:438-470 | A generated partial `equals` is never true for a value. On equal fields, it is true iff the unset sets agree or are not compared. |
| CodeGenerator.PartialGetterChecks | src/main/java/org/inferred/freebuilder/processor/CodeGenerator.java:424-430 | A partial getter throws iff its check is emitted and the property is unset. |
| CodeGenerator.ValueToBuilderVariants | src/main/java/org/inferred/freebuilder/processor/CodeGenerator.java:312-324 | The value's `toBuilder()` throws `UnsupportedOperationException` iff its emitted body is the `throw`. |
| CodeGenerator.PartialToBuilderVariants | src/main/java/org/inferred/freebuilder/processor/CodeGenerator.java:491-520 | The partial's `toBuilder()` throws iff no `PartialBuilder` class is emitted, that is, iff its body is the `throw`. |
| Builders.Builder.constructor | src/main/java/org/inferred/freebuilder/processor/CodeGenerator.java:123-135 | `new Builder()` is valid and holds the fresh state: field initialisers, then the constructor's setter calls. |
| Builders.Builder.SetProperty | src/main/java/org/inferred/freebuilder/processor/DefaultProperty.java:98-130 | `setX(v)` leaves exactly the state and outcome `DefaultProperty.Setter` gives. |
| Builders.Builder.GetProperty | src/main/java/org/inferred/freebuilder/processor/DefaultProperty.java:163-181 | `getX()` returns `DefaultProperty.Getter` of the state. |
| Builders.Builder.MapProperty | src/main/java/org/inferred/freebuilder/processor/DefaultProperty.java:132-161 | `mapX(mapper)` leaves exactly the state and outcome `DefaultProperty.Mapper` gives. |
| Builders.Builder.SetNested | src/main/java/org/inferred/freebuilder/processor/BuildableProperty.java:83-113 | `setX(null)` throws and changes nothing. Otherwise the field becomes `SetHeld` of the old one, and a held builder object stays in place. |
| Builders.Builder.SetNestedFromBuilder | src/main/java/org/inferred/freebuilder/processor/BuildableProperty.java:115-130 | `setX(builder)` is `setX(builder.build())`, and a `build()` failure propagates unchanged. |
| Builders.Builder.GetNestedBuilder | src/main/java/org/inferred/freebuilder/processor/BuildableProperty.java:160-192 | `getXBuilder()` returns the held builder if there is one, otherwise a fresh builder that the field then holds. No nested property changes. |
| Builders.Builder.MutateNested | src/main/java/org/inferred/freebuilder/processor/BuildableProperty.java:132-158 | `mutateX(mutator)` applies the mutator to `getXBuilder()`. A `null` mutator throws after the builder is fetched. |
| Builders.Builder.CurrentSet | src/main/java/org/inferred/freebuilder/processor/SortedSetProperty.java:253-265 | The set of a property, created empty in natural order if the field is `null`. It is ordered. |
| Builders.Builder.SetComparatorOf | src/main/java/org/inferred/freebuilder/processor/SortedSetProperty.java:177-220 | `setComparatorOfX` leaves exactly the field and outcome `SetComparator` gives. |
| Builders.Builder.AddElement | src/main/java/org/inferred/freebuilder/processor/SortedSetProperty.java:222-251 | `addX(e)` leaves exactly the field and outcome `Add` gives. |
| Builders.Builder.AddElements | src/main/java/org/inferred/freebuilder/processor/SortedSetProperty.java:267-309 | Varargs `add` and `addAll` leave exactly the field and outcome `AddAll` gives. |
| Builders.Builder.AddElementsUnboxed | src/main/java/org/inferred/freebuilder/processor/SortedSetProperty.java:344-355 | `addAll` for an element type that unboxes leaves exactly the field and outcome `AddAllUnboxed` gives. A `null` element throws before `addX` runs. |
| Builders.Builder.RemoveFromSet | src/main/java/org/inferred/freebuilder/processor/SortedSetProperty.java:371-398 | `removeX(e)` leaves exactly the field and outcome `RemoveElement` gives. |
| Builders.Builder.ApplyMutator | src/main/java/org/inferred/freebuilder/processor/SortedSetProperty.java:424-430 | A mutator's operations, direct or through the checked adapter, give `ApplyOps` of the set. The set stays ordered under the same comparator. |
| Builders.Builder.MutateSet | src/main/java/org/inferred/freebuilder/processor/SortedSetProperty.java:400-439 | `mutateX(mutator)` leaves exactly the field and outcome `Mutate` gives. |
| Builders.Builder.ClearSet | src/main/java/org/inferred/freebuilder/processor/SortedSetProperty.java:441-467 | `clearX()` leaves the field `SortedSetProperty.Clear` gives. |
| Builders.Builder.GetSet | src/main/java/org/inferred/freebuilder/processor/SortedSetProperty.java:469-480 | `getX()` creates the set if needed and returns it, ordered. |
| Builders.Builder.MergeValueNested | src/main/java/org/inferred/freebuilder/processor/BuildableProperty.java:241-248 | A buildable property's part of `mergeFrom(value)` leaves the field `MergeValueHeld` gives. |
| Builders.Builder.MergeValuePlain | src/main/java/org/inferred/freebuilder/processor/DefaultProperty.java:194-213 | A default property's part of `mergeFrom(value)` leaves exactly the state and outcome `DefaultProperty.MergeFromValue` gives. |
| Builders.Builder.MergeValueAt | src/main/java/org/inferred/freebuilder/processor/CodeGenerator.java:163-177 | Property `i`'s part of `mergeFrom(value)` either throws, reaching the fold's result, or leaves the fold from `i + 1` on with that same result. |
| Builders.Builder.MergeValueFromAt | src/main/java/org/inferred/freebuilder/processor/CodeGenerator.java:163-177 | The parts from `k` on reach `Generated.MergeValueFrom` from `k`. |
| Builders.Builder.MergeFromValue | src/main/java/org/inferred/freebuilder/processor/CodeGenerator.java:163-177 | `mergeFrom(value)` leaves exactly the state and outcome `Generated.MergeFromValue` gives. |
| Builders.Builder.MergeEntriesFrom | src/main/java/org/inferred/freebuilder/processor/BuildableProperty.java:251-274 | A template's held builder is merged into `getXBuilder()`, and the template's builder is left as it was. |
| Builders.Builder.MergeBuilderPlain | src/main/java/org/inferred/freebuilder/processor/DefaultProperty.java:216-247 | A default property's part of `mergeFrom(builder)` gives `Generated.MergeBuilderStep`. |
| Builders.Builder.MergeBuilderNested | src/main/java/org/inferred/freebuilder/processor/BuildableProperty.java:251-274 | A buildable property's part of `mergeFrom(builder)` gives `Generated.MergeBuilderStep`, and leaves the template as it was. |
| Builders.Builder.MergeBuilderSet | src/main/java/org/inferred/freebuilder/processor/SortedSetProperty.java:540-545 | A set property's part of `mergeFrom(builder)` gives `Generated.MergeBuilderStep`. |
| Builders.Builder.MergeBuilderAt | src/main/java/org/inferred/freebuilder/processor/CodeGenerator.java:179-194 | After property `i`'s part, the fold from `i + 1` on reaches what the fold from `i` did. |
| Builders.Builder.MergeFromBuilder | src/main/java/org/inferred/freebuilder/processor/CodeGenerator.java:179-194 | `mergeFrom(template)` leaves `Generated.MergeFromBuilder` of the old state and the template's state. The template is left unchanged. |
| Builders.Builder.ClearAt | src/main/java/org/inferred/freebuilder/processor/CodeGenerator.java:196-216 | Property `k`'s part of `clear()` replaces field `k` with `ClearedField` and nothing else. |
| Builders.Builder.Clear | src/main/java/org/inferred/freebuilder/processor/CodeGenerator.java:196-216 | `clear()` leaves `Generated.Clear` of the old state and keeps the same nested builder objects. |
| Builders.Builder.BuildPartial | src/main/java/org/inferred/freebuilder/processor/CodeGenerator.java:218-249 | `buildPartial()` returns `Generated.BuildPartial` of the state. |
| Builders.Builder.FinalSlotAt | src/main/java/org/inferred/freebuilder/processor/CodeGenerator.java:287-298 | The value constructor's step for field `k` returns `FinalSlot` of that field. |
| Builders.Builder.FinalSlotsOf | src/main/java/org/inferred/freebuilder/processor/CodeGenerator.java:287-298 | The value constructor's fields: the first failing nested `build()` propagates. |
| Builders.Builder.Build | src/main/java/org/inferred/freebuilder/processor/CodeGenerator.java:143-161 | `build()` returns `Generated.Build` of the state. For a partial's builder that is `buildPartial()`. |
| Scenario.PersonNotSetMessages | src/test/java/org/inferred/freebuilder/processor/RequiredPropertiesSourceTest.java:206-211 | For `Person`, `build()` on a fresh builder says "Not set: [name, age]". With only the age unset it says "Not set: [age]". |
| Scenario.FreshPersonBuild | src/test/java/org/inferred/freebuilder/processor/RequiredPropertiesSourceTest.java:206-211 | `new Person.Builder().build()` throws `IllegalStateException("Not set: [name, age]")`. |
| Scenario.NamedPersonBuild | src/test/java/org/inferred/freebuilder/processor/RequiredPropertiesSourceTest.java:206-211 | With only the name set, `build()` throws `IllegalStateException("Not set: [age]")`. |
| Scenario.PartialPersonGetters | src/test/java/org/inferred/freebuilder/processor/RequiredPropertiesSourceTest.java:281-294 | With only the age set, the partial's `name()` throws `UnsupportedOperationException("name not set")` and `age()` returns 30. |
| Scenario.MapAfterSet | src/test/java/org/inferred/freebuilder/processor/RequiredMapperMethodTest.java:77-90 | `setProperty(11).mapProperty(a -> a + 3).build()` holds 14. |
| Scenario.MapNull | src/test/java/org/inferred/freebuilder/processor/RequiredMapperMethodTest.java:92-113 | `mapProperty(null)` throws `NullPointerException`, whether or not the property is set. |
| Scenario.MapToNull | src/test/java/org/inferred/freebuilder/processor/RequiredMapperMethodTest.java:115-127 | A mapper returning `null` throws `NullPointerException`. |
| Scenario.MapUnset | src/test/java/org/inferred/freebuilder/processor/RequiredMapperMethodTest.java:129-138 | Mapping an unset required property throws `IllegalStateException("property not set")`. |

## Left out

- Source text. The generated Java text, the javadoc, the imports and the
  annotations are not modelled. Only the decisions they encode are:
  which member, which variant, and what it does at run time. The one
  javadoc decision kept is whether `buildPartial()` documents the
  partial's `toBuilder()`, which the generator never does.
- `hashCode` and `toString` of the value and partial. Which variant is
  emitted is recorded; the hash and string values are not modelled.
- Guava. The `ImmutableSortedSet` paths of the sorted-set property are not
  modelled. Neither is the Guava-only `mergeFrom(value)` shortcut that
  shares an immutable set. The model is the `TreeSet`-only code.
- Streams and spliterators. The `addAll(Spliterator)` and `addAll(Stream)`
  overloads are modelled as the `Iterable` one, over a sequence of elements.
- Live views. `getX()` of a set returns an unmodifiable view that tracks
  later changes. The model returns the set as it is at the call.
- User-overridden `addX`. An override may validate or reject elements. The
  `CheckedNavigableSet` callback is modelled as the generated `addX`, so a
  validating override's exceptions are not modelled.
- User setter overrides. An `IllegalArgumentException` thrown by a
  user-overridden setter is not modelled.
- Other property kinds. Lists, maps, optionals, multisets and the other
  property generators are not part of this model. Neither are
  `Serializable` and GWT support.
- The nested buildable type. It is abstracted as a builder over named
  integer properties. Merging overlays properties, `clear` forgets them,
  and `build` fails iff a required nested property is missing.
- The user's builder constructor. It is modelled as setter calls on the
  properties it gives defaults (`DefaultProperty.RunSetters`). The fresh
  state may hold no nested builder.
- The stub. `writeStubSource`, written when there is no user-declared
  builder, is only recorded as `Stub`.
- Builders.Builder.MergeFromBuilder requires the template to be another
  builder, `t != this`, whose nested builders are not this builder's.
  `mergeFrom(this)` and shared nested builders are covered only by the
  function `Generated.MergeFromBuilder`, which reads the template's state
  as it was when the call began.
- Builders.Builder.MergeFromBuilder reads the template's fields once at the
  start. That is equivalent because no property's code changes the
  template.
- RoundTrip.ValueStepFromFresh, and the other round-trip lemmas, assume
  `Untouched`: the builder constructor leaves buildable fields `null` and
  adds no set element (it may set a comparator consistent with `equals`).
  Without it the round trip does not hold, as
  `RoundTrip.FromKeepsConstructorElements` and
  `RoundTrip.SetCopyByMagnitudeCollapses` show.
- RoundTrip.ValueFoldFromFresh assumes `Untouched`, as above.
- RoundTrip.FromThenBuild assumes `Untouched`, as above. A constructor that
  adds set elements makes `from(v).build()` hold them too. A constructor
  that creates a nested builder makes it merge `v`'s nested value into it.
- RoundTrip.PartialStepFromFresh assumes `Untouched`, as above.
- RoundTrip.PartialFoldFromFresh assumes `Untouched`, as above.
- RoundTrip.PartialToBuilderThenBuild assumes `Untouched`, as above.
- A `null` collection. The varargs `addX(E...)` and `addAllX(...)` throw
  `NullPointerException` when the collection itself is `null`
  (SortedSetProperty.java:277, :366). The model's element sequences cannot
  be `null`, so only `null` elements are modelled.
- A mutator that throws part-way. `mutateX` hands the set to the user's
  mutator, which may throw after making some changes; those changes stay.
  `SortedSetProperty.Mutate` takes the mutator as a finished list of adds
  and removes of non-`null` elements, so it models no exception from the
  mutator, including a `NullPointerException` from adding `null` to the
  set it is handed.

## Findings

| source | as written | input that shows it | evidently intended | confidence | as-written member | corrected member |
|---|---|---|---|---|---|---|
| src/main/java/org/inferred/freebuilder/processor/CodeGenerator.java:228-229 | `metadata.getBuilderFactory() == Optional.of(BuilderFactory.NO_ARGS_CONSTRUCTOR)` compares references, and `Optional.of` returns a new object | a type with `toBuilder()` whose builder has a no-argument constructor: the paragraph about the partial's `toBuilder()` is not emitted in `buildPartial()`'s javadoc | compare contents with `equals`, so the paragraph appears whenever the type has `toBuilder()` and a no-argument builder constructor. The paragraph's text is then accurate only for an extensible builder: otherwise the partial's `toBuilder()` throws, as the corrected member's lemma shows | not executed | CodeGenerator.PartialDocConditionAsWritten (lemma CodeGenerator.PartialDocNeverEmitted) | CodeGenerator.PartialDocCondition (lemma CodeGenerator.PartialDocConditionSpec) |
