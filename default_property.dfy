/**
 * The runtime contract of a default property: one that is neither buildable
 * nor a collection. It is `Required` until its setter is called, unless the
 * user's builder constructor calls that setter, which gives it a default.
 */
module DefaultProperty {
  import opened Runtime
  import opened TypeModel

  /** `getType()`: a property whose setter the builder constructor calls has
      a default; every other one is required. */
  function KindFor(hasDefault: bool): (k: Kind)
    ensures IsPlain(Property("", k, false))
    ensures k.Required? <==> !hasDefault
  {
    if hasDefault then HasDefault else Required
  }

  /** Property `i` is a default property of a builder state shaped by
      `props`. */
  ghost predicate PlainAt(props: seq<Property>, s: State, i: nat)
  {
    StateOk(props, s) && i < |props| && IsPlain(props[i])
  }

  /** `r` differs from `s` at most in field `i`, and at most by `i` no
      longer being unset; while `i` stays unset its field is untouched. */
  ghost predicate Touches(s: State, r: State, i: nat)
  {
    |r.fields| == |s.fields|
    && (forall j :: 0 <= j < |s.fields| && j != i ==> r.fields[j] == s.fields[j])
    && (r.unset == s.unset || r.unset == s.unset - {i})
    && (i in r.unset && i < |s.fields| ==> r.fields[i] == s.fields[i])
  }

  /** Stores `v` in field `i`; a required property is no longer unset. */
  function Assign(props: seq<Property>, s: State, i: nat, v: Val): State
    requires i < |s.fields| && i < |props|
  {
    State(s.fields[i := PlainField(Some(v))], if IsRequired(props[i]) then s.unset - {i} else s.unset)
  }

  /** `setX(value)`: `null` throws and changes nothing. */
  function Setter(props: seq<Property>, s: State, i: nat, v: Option<Val>): Step
    requires i < |s.fields| && i < |props|
  {
    if v.None? then Step(s, Thrown(NullPointer)) else Step(Assign(props, s, i, v.value), Done)
  }

  /** `getX()`: a required property that is still unset throws
      `IllegalStateException`. */
  function Getter(props: seq<Property>, s: State, i: nat): (r: Result<Option<Val>>)
    requires i < |s.fields| && i < |props| && s.fields[i].PlainField?
    ensures r.Err? <==> IsRequired(props[i]) && i in s.unset
    ensures r.Err? ==> r.error == IllegalState(props[i].name + " not set")
  {
    if IsRequired(props[i]) && i in s.unset then Err(IllegalState(props[i].name + " not set"))
    else Ok(s.fields[i].value)
  }

  /** `mapX(mapper)`: `setX(mapper.apply(getX()))`; a `null` mapper throws
      before anything else. */
  function Mapper(props: seq<Property>, s: State, i: nat, mapper: Option<Option<Val> -> Option<Val>>): Step
    requires i < |s.fields| && i < |props| && s.fields[i].PlainField?
  {
    if mapper.None? then Step(s, Thrown(NullPointer))
    else match Getter(props, s, i)
      case Err(e) => Step(s, Thrown(e))
      case Ok(v) => Setter(props, s, i, mapper.value(v))
  }

  /** Whether `mergeFrom(value)` copies property `i` whose value is `v`:
      always when no fresh builder is available, otherwise when the fresh
      builder lacks the (required) property or differs from `v`. */
  predicate MergeValueCopies(props: seq<Property>, defaults: Option<State>, i: nat, v: Option<Val>)
    requires i < |props|
    requires defaults.Some? ==> i < |defaults.value.fields| && defaults.value.fields[i].PlainField?
  {
    defaults.None?
    || (IsRequired(props[i]) && i in defaults.value.unset)
    || v != defaults.value.fields[i].value
  }

  /** `mergeFrom(value)`, for property `i`. */
  function MergeFromValue(props: seq<Property>, defaults: Option<State>, s: State, src: Instance, i: nat): (r: Step)
    requires PlainAt(props, s, i) && InstanceOk(props, src)
    requires defaults.Some? ==> StateOk(props, defaults.value)
    ensures StateOk(props, r.state) && Touches(s, r.state, i)
    ensures r.outcome.Thrown? ==>
      r.outcome.error == NullPointer || r.outcome.error == UnsupportedOperation(props[i].name + " not set")
  {
    match InstanceGet(props, src, i)
    case Err(e) => Step(s, Thrown(e))
    case Ok(slot) =>
      if MergeValueCopies(props, defaults, i, slot.value) then Setter(props, s, i, slot.value)
      else Step(s, Done)
  }

  /** Whether `mergeFrom(builder)` copies property `i` from `template`: a
      required property only when set there; then, with a fresh builder
      available, only when the fresh builder lacks it or differs. */
  predicate MergeBuilderCopies(props: seq<Property>, defaults: Option<State>, template: State, i: nat)
    requires i < |props| && i < |template.fields| && template.fields[i].PlainField?
    requires defaults.Some? ==> i < |defaults.value.fields| && defaults.value.fields[i].PlainField?
  {
    if IsRequired(props[i]) then
      i !in template.unset
      && (defaults.None? || i in defaults.value.unset || template.fields[i].value != defaults.value.fields[i].value)
    else
      defaults.None? || template.fields[i].value != defaults.value.fields[i].value
  }

  /** `mergeFrom(builder)`, for property `i`. A copied value is never `null`,
      so the setter cannot throw here. */
  function MergeFromBuilder(props: seq<Property>, defaults: Option<State>, s: State, template: State, i: nat): (r: State)
    requires PlainAt(props, s, i) && StateOk(props, template)
    requires defaults.Some? ==> StateOk(props, defaults.value)
    ensures StateOk(props, r) && Touches(s, r, i)
  {
    if MergeBuilderCopies(props, defaults, template, i) then
      AssignKeepsOk(props, s, i, template.fields[i].value.value);
      Assign(props, s, i, template.fields[i].value.value)
    else s
  }

  /** `clear()`, for property `i`: the fresh builder's value when one is
      available; otherwise the field is left as it is. */
  function ClearField(defaults: Option<State>, s: State, i: nat): (r: State)
    requires i < |s.fields|
    requires defaults.Some? ==> i < |defaults.value.fields|
  {
    if defaults.Some? then State(s.fields[i := defaults.value.fields[i]], s.unset) else s
  }

  /** The partial's `toBuilder()`, for property `i`: copied through the
      setter unless it is a required property the partial does not have. */
  function SetFromPartial(props: seq<Property>, s: State, p: Instance, i: nat): (r: State)
    requires PlainAt(props, s, i) && InstanceOk(props, p)
    ensures StateOk(props, r) && Touches(s, r, i)
  {
    if i in UnsetOf(p) then s
    else
      AssignKeepsOk(props, s, i, p.slots[i].value.value);
      Assign(props, s, i, p.slots[i].value.value)
  }

  /** The user's builder constructor, as far as generated code can see it:
      setter calls on the properties it gives defaults. */
  function RunSetters(props: seq<Property>, s: State, calls: seq<(nat, Val)>): State
    requires |s.fields| == |props|
    requires forall k :: 0 <= k < |calls| ==> calls[k].0 < |props|
    decreases |calls|
  {
    if |calls| == 0 then s
    else
      var next := Assign(props, s, calls[0].0, calls[0].1);
      RunSetters(props, next, calls[1..])
  }

  // ---------------------------------------------------------------------
  // Lemmas

  lemma AssignKeepsOk(props: seq<Property>, s: State, i: nat, v: Val)
    requires PlainAt(props, s, i)
    ensures StateOk(props, Assign(props, s, i, v))
  {
  }

  /** A value that was set is what the getter returns; no other property
      changes, and the property is no longer unset. */
  lemma SetThenGet(props: seq<Property>, s: State, i: nat, v: Val)
    requires PlainAt(props, s, i)
    ensures var r := Setter(props, s, i, Some(v));
      r.outcome.Done? && StateOk(props, r.state)
      && Getter(props, r.state, i) == Ok(Some(v))
      && i !in r.state.unset
      && r.state.unset == s.unset - {i}
      && forall j :: 0 <= j < |s.fields| && j != i ==> r.state.fields[j] == s.fields[j]
  {
  }

  /** `null` is rejected and leaves the builder unchanged. */
  lemma SetNullRejected(props: seq<Property>, s: State, i: nat)
    requires PlainAt(props, s, i)
    ensures Setter(props, s, i, None) == Step(s, Thrown(NullPointer))
  {
  }

  /** The mapper replaces the value with the mapper's result: it throws
      `IllegalStateException` (changing nothing) when a required property is
      unset, and `NullPointerException` when the mapper is `null` or returns
      `null`. */
  lemma MapperSpec(props: seq<Property>, s: State, i: nat, f: Option<Val> -> Option<Val>)
    requires PlainAt(props, s, i)
    ensures IsRequired(props[i]) && i in s.unset ==>
      Mapper(props, s, i, Some(f)) == Step(s, Thrown(IllegalState(props[i].name + " not set")))
    ensures i !in s.unset ==>
      var before := s.fields[i].value;
      (f(before).None? ==> Mapper(props, s, i, Some(f)) == Step(s, Thrown(NullPointer)))
      && (f(before).Some? ==>
            Mapper(props, s, i, Some(f)).outcome.Done?
            && Getter(props, Mapper(props, s, i, Some(f)).state, i) == Ok(f(before)))
    ensures Mapper(props, s, i, None) == Step(s, Thrown(NullPointer))
  {
  }

  /** Merging a value into a fresh builder leaves the builder's getter
      returning the value's property, whether or not the setter was called. */
  lemma MergeValueIntoFresh(props: seq<Property>, start: State, src: Instance, i: nat)
    requires PlainAt(props, start, i) && InstanceOk(props, src)
    requires start.unset == RequiredIndices(props)
    requires i !in UnsetOf(src)
    ensures var r := MergeFromValue(props, Some(start), start, src, i);
      r.outcome.Done? && Getter(props, r.state, i) == Ok(src.slots[i].value)
  {
  }

  /** Merging from a builder into a fresh builder copies the property
      exactly when the template has it, and the copy reads the same. */
  lemma MergeBuilderIntoFresh(props: seq<Property>, defaults: Option<State>, start: State, template: State, i: nat)
    requires PlainAt(props, start, i) && StateOk(props, template)
    requires start.unset == RequiredIndices(props)
    requires defaults.Some? ==> defaults.value == start
    ensures var r := MergeFromBuilder(props, defaults, start, template, i);
      (i in r.unset <==> i in template.unset)
      && (i !in template.unset ==> Getter(props, r, i) == Getter(props, template, i))
  {
  }

  /** `mergeFrom(value)` into any builder, for a property with a default:
      skipped, leaving the builder exactly as it was, when the value holds
      what a fresh builder holds; otherwise copied into field `i` with
      nothing else changed. Without a fresh builder it is always copied. */
  lemma MergeValueOptional(props: seq<Property>, defaults: Option<State>, s: State, src: Instance, i: nat)
    requires PlainAt(props, s, i) && InstanceOk(props, src)
    requires defaults.Some? ==> StateOk(props, defaults.value)
    requires !IsRequired(props[i])
    ensures var r := MergeFromValue(props, defaults, s, src, i);
      (defaults.Some? && src.slots[i].value == defaults.value.fields[i].value ==> r == Step(s, Done))
      && (defaults.None? || src.slots[i].value != defaults.value.fields[i].value ==>
            r == Step(State(s.fields[i := PlainField(src.slots[i].value)], s.unset), Done))
  {
  }

  /** `mergeFrom(value)` into any builder, for a required property: a
      partial lacking it throws `UnsupportedOperationException` and changes
      nothing; a value equal to what a fresh builder already has set is
      skipped; otherwise it is copied and the property is no longer unset. */
  lemma MergeValueRequired(props: seq<Property>, defaults: Option<State>, s: State, src: Instance, i: nat)
    requires PlainAt(props, s, i) && InstanceOk(props, src)
    requires defaults.Some? ==> StateOk(props, defaults.value)
    requires IsRequired(props[i])
    ensures var r := MergeFromValue(props, defaults, s, src, i);
      (i in UnsetOf(src) ==> r == Step(s, Thrown(UnsupportedOperation(props[i].name + " not set"))))
      && ((i !in UnsetOf(src) && defaults.Some? && i !in defaults.value.unset
           && src.slots[i].value == defaults.value.fields[i].value) ==> r == Step(s, Done))
      && ((i !in UnsetOf(src)
           && (defaults.None? || i in defaults.value.unset || src.slots[i].value != defaults.value.fields[i].value)) ==>
            r == Step(State(s.fields[i := PlainField(src.slots[i].value)], s.unset - {i}), Done))
  {
  }

  /** `mergeFrom(builder)` into any builder, for property `i`: skipped,
      leaving the builder exactly as it was, when the template lacks the
      required property or holds what a fresh builder has set; otherwise the
      template's field is copied and `i` is no longer unset. */
  lemma MergeBuilderCopyOrSkip(props: seq<Property>, defaults: Option<State>, s: State, template: State, i: nat)
    requires PlainAt(props, s, i) && StateOk(props, template)
    requires defaults.Some? ==> StateOk(props, defaults.value)
    ensures var r := MergeFromBuilder(props, defaults, s, template, i);
      var missing := IsRequired(props[i]) && i in template.unset;
      var asFresh := defaults.Some? && !(IsRequired(props[i]) && i in defaults.value.unset)
        && template.fields[i] == defaults.value.fields[i];
      (missing || asFresh ==> r == s)
      && (!missing && !asFresh ==> r == State(s.fields[i := template.fields[i]], s.unset - {i}))
  {
  }

  /** Copying from a partial restores what the partial holds: the property
      is unset exactly when the partial lacks it, and reads the same
      otherwise. */
  lemma SetFromPartialRestores(props: seq<Property>, start: State, p: Instance, i: nat)
    requires PlainAt(props, start, i) && InstanceOk(props, p) && p.Partial?
    requires start.unset == RequiredIndices(props)
    ensures var r := SetFromPartial(props, start, p, i);
      (i in r.unset <==> i in p.unset)
      && (i !in p.unset ==> Getter(props, r, i) == Ok(p.slots[i].value))
  {
  }

  /** With a fresh builder available, `clear()` returns the field to its
      fresh value; repeated, it changes nothing more. */
  lemma ClearRestoresFresh(props: seq<Property>, start: State, s: State, i: nat)
    requires PlainAt(props, s, i) && StateOk(props, start)
    ensures ClearField(Some(start), s, i).fields[i] == start.fields[i]
    ensures ClearField(Some(start), s, i).unset == s.unset
    ensures ClearField(Some(start), ClearField(Some(start), s, i), i) == ClearField(Some(start), s, i)
    ensures ClearField(None, s, i) == s
  {
  }

  /** Setter calls made by the builder constructor on properties with a
      default leave every required property unset, and the field of every
      property it called holds the last value set. */
  lemma {:induction false} ConstructorKeepsRequiredUnset(props: seq<Property>, s: State, calls: seq<(nat, Val)>)
    requires |s.fields| == |props|
    requires forall k :: 0 <= k < |calls| ==> calls[k].0 < |props| && props[calls[k].0].kind == KindFor(true)
    ensures RunSetters(props, s, calls).unset == s.unset
    ensures |RunSetters(props, s, calls).fields| == |props|
    ensures forall k :: 0 <= k < |calls| ==>
      RunSetters(props, s, calls).fields[calls[k].0].PlainField? && RunSetters(props, s, calls).fields[calls[k].0].value.Some?
    ensures forall j :: 0 <= j < |props| && (forall k :: 0 <= k < |calls| ==> calls[k].0 != j) ==>
      RunSetters(props, s, calls).fields[j] == s.fields[j]
    decreases |calls|
  {
    if |calls| != 0 {
      var next := Assign(props, s, calls[0].0, calls[0].1);
      ConstructorKeepsRequiredUnset(props, next, calls[1..]);
      var r := RunSetters(props, s, calls);
      assert r == RunSetters(props, next, calls[1..]);
      forall k | 0 <= k < |calls|
        ensures r.fields[calls[k].0].PlainField? && r.fields[calls[k].0].value.Some?
      {
        if k > 0 {
          assert calls[1..][k - 1] == calls[k];
        } else if exists m :: 0 <= m < |calls[1..]| && calls[1..][m].0 == calls[0].0 {
          var m :| 0 <= m < |calls[1..]| && calls[1..][m].0 == calls[0].0;
        }
      }
      forall j | 0 <= j < |props| && (forall k :: 0 <= k < |calls| ==> calls[k].0 != j)
        ensures r.fields[j] == s.fields[j]
      {
        assert calls[0].0 != j;
        forall m | 0 <= m < |calls[1..]|
          ensures calls[1..][m].0 != j
        {
          assert calls[1..][m] == calls[m + 1];
        }
      }
    }
  }

  /** A new builder, made by the field initialisers and then setter calls in
      the constructor on every property with a default, is a valid builder
      state in which exactly the required properties are unset. */
  lemma NewBuilderState(props: seq<Property>, calls: seq<(nat, Val)>)
    requires forall k :: 0 <= k < |calls| ==> calls[k].0 < |props| && props[calls[k].0].kind == KindFor(true)
    requires forall j :: 0 <= j < |props| && props[j].kind == KindFor(true) ==>
      exists k :: 0 <= k < |calls| && calls[k].0 == j
    ensures RunSetters(props, GeneratedInit(props), calls).unset == RequiredIndices(props)
    ensures StateOk(props, RunSetters(props, GeneratedInit(props), calls))
  {
    ConstructorKeepsRequiredUnset(props, GeneratedInit(props), calls);
    forall j: nat | j < |props| {
      FieldOfNewBuilder(props, calls, j);
    }
  }

  lemma FieldOfNewBuilder(props: seq<Property>, calls: seq<(nat, Val)>, j: nat)
    requires forall k :: 0 <= k < |calls| ==> calls[k].0 < |props| && props[calls[k].0].kind == KindFor(true)
    requires forall j :: 0 <= j < |props| && props[j].kind == KindFor(true) ==>
      exists k :: 0 <= k < |calls| && calls[k].0 == j
    requires j < |props|
    ensures var s := RunSetters(props, GeneratedInit(props), calls);
      |s.fields| == |props| && s.unset == RequiredIndices(props)
      && Fits(props[j], s.fields[j])
      && (s.fields[j].PlainField? && j !in s.unset ==> s.fields[j].value.Some?)
  {
    var init := GeneratedInit(props);
    ConstructorKeepsRequiredUnset(props, init, calls);
    if props[j].kind == KindFor(true) {
      var k :| 0 <= k < |calls| && calls[k].0 == j;
    }
  }
}
