/**
 * The checked set adapter that generated builders hand to user mutators: a
 * set view whose reads go to a backing set, whose `add` of a new element is
 * routed through a callback (the builder's add method, so that an
 * overriding add method still validates), and whose `remove` goes straight
 * to the backing set.
 */
module CheckedSet {
  import opened SortedSetProperty

  /**
   * The adapter together with the set it forwards to. The callback is the
   * generated add method, which inserts into that same backing set;
   * `accepted` records every element handed to the callback, in order.
   */
  class CheckedSet {
    var backing: SortedSetValue
    var accepted: seq<int>

    ghost predicate Valid()
      reads this
    {
      WellFormed(backing)
    }

    constructor (initial: SortedSetValue)
      requires WellFormed(initial)
      ensures Valid()
      ensures backing == initial && accepted == []
    {
      backing := initial;
      accepted := [];
    }

    /** `iterator()`: the backing set's elements, in its order. */
    method Iterator() returns (es: seq<int>)
      requires Valid()
      ensures es == backing.elements
      ensures forall i, j :: 0 <= i < j < |es| ==> Rank(backing.comparator, es[i]) < Rank(backing.comparator, es[j])
    {
      es := backing.elements;
    }

    /** `size()`: the backing set's size. */
    method Size() returns (n: nat)
      requires Valid()
      ensures n == |backing.elements|
    {
      n := |backing.elements|;
    }

    /** `contains(e)`: whether the backing set holds an element comparing
        equal to `e`. */
    method Contains(e: int) returns (b: bool)
      requires Valid()
      ensures b <==> exists x :: x in backing.elements && Rank(backing.comparator, x) == Rank(backing.comparator, e)
    {
      b := Holds(backing.comparator, backing.elements, e);
    }

    /** The callback: the builder's add method, inserting into the backing
        set. */
    method Accept(e: int)
      requires Valid()
      modifies this
      ensures Valid()
      ensures accepted == old(accepted) + [e]
      ensures backing == SortedSetValue(old(backing.comparator), Insert(old(backing.comparator), old(backing.elements), e))
    {
      InsertSpec(backing.comparator, backing.elements, e);
      accepted := accepted + [e];
      backing := SortedSetValue(backing.comparator, Insert(backing.comparator, backing.elements, e));
    }

    /** `add(e)`: an element not yet present is handed to the callback exactly
        once and `true` is returned; a present one returns `false` and the
        callback is not invoked. Either way the backing set ends up as a
        plain `TreeSet.add` would leave it. */
    method Add(e: int) returns (added: bool)
      requires Valid()
      modifies this
      ensures Valid()
      ensures added <==> !Holds(old(backing.comparator), old(backing.elements), e)
      ensures added ==> accepted == old(accepted) + [e]
      ensures !added ==> accepted == old(accepted) && backing == old(backing)
      ensures backing == SortedSetValue(old(backing.comparator), Insert(old(backing.comparator), old(backing.elements), e))
    {
      var present := Contains(e);
      if !present {
        Accept(e);
        added := true;
      } else {
        InsertSpec(backing.comparator, backing.elements, e);
        added := false;
      }
    }

    /** `remove(e)`: forwarded to the backing set; the callback is not
        involved. */
    method Remove(e: int) returns (removed: bool)
      requires Valid()
      modifies this
      ensures Valid()
      ensures removed <==> Holds(old(backing.comparator), old(backing.elements), e)
      ensures accepted == old(accepted)
      ensures backing == SortedSetValue(old(backing.comparator), SortedSetProperty.Remove(old(backing.comparator), old(backing.elements), e))
    {
      RemoveSpec(backing.comparator, backing.elements, e);
      removed := Holds(backing.comparator, backing.elements, e);
      backing := SortedSetValue(backing.comparator, SortedSetProperty.Remove(backing.comparator, backing.elements, e));
    }
  }

  /** A mutator's operations applied through the adapter leave the backing
      set exactly as applying them to the set directly would: routing adds
      through the callback changes nothing when the callback is the
      generated add method. */
  method ApplyThroughAdapter(start: SortedSetValue, ops: seq<SetOp>) returns (result: SortedSetValue)
    requires WellFormed(start)
    ensures result == ApplyOps(start, ops)
    ensures WellFormed(result)
  {
    var adapter := new CheckedSet(start);
    var k := 0;
    while k < |ops|
      invariant 0 <= k <= |ops|
      invariant adapter.Valid()
      invariant adapter.backing.comparator == start.comparator
      invariant ApplyOps(adapter.backing, ops[k..]) == ApplyOps(start, ops)
    {
      assert ops[k..][1..] == ops[k + 1..];
      match ops[k] {
        case AddOp(e) =>
          var _ := adapter.Add(e);
        case RemoveOp(e) =>
          var _ := adapter.Remove(e);
      }
      k := k + 1;
    }
    assert ops[k..] == [];
    result := adapter.backing;
  }
}
