/**
 * Two concrete types driven through the generated builder object: `Person`,
 * with a required `String name` and a required `int age`, and `DataType`,
 * with a single required `int property` and its mapper method.
 */
module Scenario {
  import opened Runtime
  import opened TypeModel
  import opened Generated
  import opened Builders

  function PersonProperties(): seq<Property>
  {
    [Property("name", Required, false), Property("age", Required, true)]
  }

  /** `Person`, an abstract class with a user-declared `Builder` that has a
      no-argument constructor setting nothing. */
  function PersonMetadata(): Metadata
  {
    Metadata(PersonProperties(), true, Some(NoArgsConstructor), false, true, false,
      Absent, Absent, Absent, GeneratedInit(PersonProperties()), true)
  }

  function DataTypeProperties(): seq<Property>
  {
    [Property("property", Required, true)]
  }

  /** `DataType`, an interface with a user-declared `Builder`. */
  function DataTypeMetadata(): Metadata
  {
    Metadata(DataTypeProperties(), true, Some(NoArgsConstructor), false, true, true,
      Absent, Absent, Absent, GeneratedInit(DataTypeProperties()), true)
  }

  lemma PersonMetadataOk()
    ensures MetadataOk(PersonMetadata())
    ensures PersonMetadata().initial == State([PlainField(None), PlainField(Some(Num(0)))], {0, 1})
  {
    var props := PersonProperties();
    assert RequiredIndices(props) == {0, 1} by {
      assert 0 in RequiredIndices(props) && 1 in RequiredIndices(props);
    }
  }

  lemma DataTypeMetadataOk()
    ensures MetadataOk(DataTypeMetadata())
    ensures DataTypeMetadata().initial == State([PlainField(Some(Num(0)))], {0})
  {
    assert 0 in RequiredIndices(DataTypeProperties());
  }

  /** The messages `build()` gives for `Person` with both properties unset
      and with only the age unset. */
  lemma PersonNotSetMessages()
    ensures HasRequired(PersonProperties())
    ensures "Not set: " + ShowList(UnsetNames(PersonProperties(), {0, 1}, 0)) == "Not set: [name, age]"
    ensures "Not set: " + ShowList(UnsetNames(PersonProperties(), {1}, 0)) == "Not set: [age]"
  {
    var props := PersonProperties();
    assert IsRequired(props[0]);
    assert UnsetNames(props, {0, 1}, 1) == ["age"];
    assert UnsetNames(props, {0, 1}, 0) == ["name", "age"];
    assert UnsetNames(props, {1}, 1) == ["age"];
    assert UnsetNames(props, {1}, 0) == ["age"];
    assert Join(["name", "age"]) == "name, age";
    assert "Not set: " + ("[" + "name, age" + "]") == "Not set: [name, age]";
    assert "Not set: " + ("[" + "age" + "]") == "Not set: [age]";
  }

  /** `new Person.Builder().build()` throws
      `IllegalStateException("Not set: [name, age]")`. */
  method FreshPersonBuild() returns (r: Result<Instance>)
    ensures r == Err(IllegalState("Not set: [name, age]"))
  {
    PersonMetadataOk();
    PersonNotSetMessages();
    var b := new Builder(PersonMetadata(), false);
    r := b.Build();
  }

  /** With only the name set, `build()` names the age alone. */
  method NamedPersonBuild() returns (r: Result<Instance>)
    ensures r == Err(IllegalState("Not set: [age]"))
  {
    PersonMetadataOk();
    PersonNotSetMessages();
    var b := new Builder(PersonMetadata(), false);
    var o := b.SetProperty(0, Some(Str("Alice")));
    assert b.View().unset == {1};
    r := b.Build();
  }

  /** The partial of a builder with only the age set throws
      `UnsupportedOperationException("name not set")` from `name()`, and
      returns the age from `age()`. */
  method PartialPersonGetters() returns (name: Result<Slot>, age: Result<Slot>)
    ensures name == Err(UnsupportedOperation("name not set"))
    ensures age == Ok(PlainSlot(Some(Num(30))))
  {
    PersonMetadataOk();
    var b := new Builder(PersonMetadata(), false);
    var o := b.SetProperty(1, Some(Num(30)));
    assert b.View() == State([PlainField(None), PlainField(Some(Num(30)))], {0});
    var p := b.BuildPartial();
    assert p.slots[1] == PartialSlot(PlainField(Some(Num(30))));
    assert p.Partial? && p.unset == {0} && IsRequired(PersonProperties()[0]);
    assert "name" + " not set" == "name not set";
    name := InstanceGet(PersonProperties(), p, 0);
    age := InstanceGet(PersonProperties(), p, 1);
  }

  /** The mapper the test passes: `a -> a + 3`. */
  function AddThree(a: Option<Val>): Option<Val>
  {
    if a.Some? && a.value.Num? then Some(Num(a.value.n + 3)) else a
  }

  /** `setProperty(11).mapProperty(a -> a + 3).build()` holds 14. */
  method MapAfterSet() returns (r: Result<Instance>)
    ensures r == Ok(Value([PlainSlot(Some(Num(14)))]))
  {
    DataTypeMetadataOk();
    var b := new Builder(DataTypeMetadata(), false);
    var o := b.SetProperty(0, Some(Num(11)));
    assert b.View() == State([PlainField(Some(Num(11)))], {});
    o := b.MapProperty(0, Some(AddThree));
    assert b.View() == State([PlainField(Some(Num(14)))], {});
    r := b.Build();
    var props, fs := DataTypeProperties(), [PlainField(Some(Num(14)))];
    assert FinalSlots(props, fs, 1) == Ok([]);
    assert FinalSlot(props[0], fs[0]) == Ok(PlainSlot(Some(Num(14))));
    assert [PlainSlot(Some(Num(14)))] + [] == [PlainSlot(Some(Num(14)))];
    assert FinalSlots(props, fs, 0) == Ok([PlainSlot(Some(Num(14)))]);
    assert !(HasRequired(DataTypeProperties()) && b.View().unset != {});
  }

  /** A `null` mapper throws `NullPointerException`, whether or not the
      property is set. */
  method MapNull() returns (unsetFirst: Outcome, setFirst: Outcome)
    ensures unsetFirst == Thrown(NullPointer) && setFirst == Thrown(NullPointer)
  {
    DataTypeMetadataOk();
    var b := new Builder(DataTypeMetadata(), false);
    unsetFirst := b.MapProperty(0, None);
    var _ := b.SetProperty(0, Some(Num(11)));
    setFirst := b.MapProperty(0, None);
  }

  /** A mapper returning `null` throws `NullPointerException`. */
  method MapToNull() returns (o: Outcome)
    ensures o == Thrown(NullPointer)
  {
    DataTypeMetadataOk();
    var b := new Builder(DataTypeMetadata(), false);
    var _ := b.SetProperty(0, Some(Num(11)));
    o := b.MapProperty(0, Some((a: Option<Val>) => None));
  }

  /** Mapping an unset property throws
      `IllegalStateException("property not set")`. */
  method MapUnset() returns (o: Outcome)
    ensures o == Thrown(IllegalState("property not set"))
  {
    DataTypeMetadataOk();
    var b := new Builder(DataTypeMetadata(), false);
    o := b.MapProperty(0, Some((a: Option<Val>) => Some(Num(14))));
  }
}
