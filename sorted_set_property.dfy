/**
 * The runtime contract of a sorted-set property of a generated builder: a
 * `NavigableSet` field that starts out `null`, is turned into a `TreeSet` on
 * first use, and is then changed in place by add, remove, mutate and clear.
 *
 * A `TreeSet` is modelled by the sequence of its elements in iteration
 * order: strictly ascending under its comparator, so that no two elements
 * compare equal. Element values are drawn from `int`. `Add`, `AddAll` and
 * `RemoveElement` model a reference element type, whose `null` is `None`;
 * `AddAllUnboxed` models an element type that unboxes (a Java `Integer`),
 * whose `add` and `remove` take a primitive and so see no `null`.
 */
module SortedSetProperty {
  import opened Runtime

  /** The comparators a set can be ordered by. `Natural` is also what a
      `null` comparator means; `ByMagnitude` (compare absolute values) is a
      comparator inconsistent with equals, under which 3 and -3 collide. */
  datatype Comparator = Natural | Reverse | ByMagnitude

  /** The comparator as a key: `compare(a, b) < 0` iff
      `Rank(c, a) < Rank(c, b)`, and `a`, `b` compare equal iff their ranks
      are equal. */
  function Rank(c: Comparator, e: int): int
  {
    match c
    case Natural => e
    case Reverse => -e
    case ByMagnitude => if e < 0 then -e else e
  }

  /** A `TreeSet` (or `ImmutableSortedSet`) value: its comparator and its
      elements in iteration order. */
  datatype SortedSetValue = SortedSetValue(comparator: Comparator, elements: seq<int>)

  /** Iteration order of a tree set: strictly ascending under `c`. */
  ghost predicate Ascending(c: Comparator, es: seq<int>)
  {
    forall i, j :: 0 <= i < j < |es| ==> Rank(c, es[i]) < Rank(c, es[j])
  }

  ghost predicate WellFormed(s: SortedSetValue)
  {
    Ascending(s.comparator, s.elements)
  }

  /** The ranks present in `es`. */
  ghost function Ranks(c: Comparator, es: seq<int>): set<int>
  {
    set x | x in es :: Rank(c, x)
  }

  /** `TreeSet.contains(e)`: some element compares equal to `e`. */
  predicate Holds(c: Comparator, es: seq<int>, e: int)
  {
    exists x :: x in es && Rank(c, x) == Rank(c, e)
  }

  /** `TreeSet.add(e)`: inserted at its place, unless an element comparing
      equal to `e` is already present, in which case the set is unchanged
      and the earlier element is kept. */
  function Insert(c: Comparator, es: seq<int>, e: int): seq<int>
  {
    if |es| == 0 then [e]
    else if Rank(c, e) < Rank(c, es[0]) then [e] + es
    else if Rank(c, e) == Rank(c, es[0]) then es
    else [es[0]] + Insert(c, es[1..], e)
  }

  /** `TreeSet.remove(e)`: drops the element comparing equal to `e`, if any. */
  function Remove(c: Comparator, es: seq<int>, e: int): seq<int>
  {
    if |es| == 0 then []
    else if Rank(c, es[0]) == Rank(c, e) then es[1..]
    else [es[0]] + Remove(c, es[1..], e)
  }

  /** `add` applied to each of `xs` in turn. */
  function InsertAll(c: Comparator, es: seq<int>, xs: seq<int>): seq<int>
    decreases |xs|
  {
    if |xs| == 0 then es else InsertAll(c, Insert(c, es, xs[0]), xs[1..])
  }

  /** `x` occurs in `s` with no element of the same rank before it: the
      first element of `s` that compares equal to `x` is `x` itself. */
  ghost predicate FirstOfRank(c: Comparator, s: seq<int>, x: int)
    decreases |s|
  {
    |s| != 0 && if Rank(c, s[0]) == Rank(c, x) then s[0] == x else FirstOfRank(c, s[1..], x)
  }

  // ---------------------------------------------------------------------
  // Tree-set lemmas

  lemma AscendingCons(c: Comparator, h: int, t: seq<int>)
    ensures Ascending(c, [h] + t) <==> Ascending(c, t) && forall x :: x in t ==> Rank(c, h) < Rank(c, x)
  {
    var s := [h] + t;
    if Ascending(c, t) && forall x :: x in t ==> Rank(c, h) < Rank(c, x) {
      forall i, j | 0 <= i < j < |s| ensures Rank(c, s[i]) < Rank(c, s[j]) {
        assert s[j] == t[j - 1];
        if i > 0 {
          assert s[i] == t[i - 1];
        }
      }
    }
    if Ascending(c, s) {
      forall i, j | 0 <= i < j < |t| ensures Rank(c, t[i]) < Rank(c, t[j]) {
        assert t[i] == s[i + 1] && t[j] == s[j + 1];
      }
      forall x | x in t ensures Rank(c, h) < Rank(c, x) {
        var k :| 0 <= k < |t| && t[k] == x;
        assert s[0] == h && s[k + 1] == x;
      }
    }
  }

  /** `add` keeps the set ordered, adds exactly `e` when no element compares
      equal to it, and otherwise changes nothing. */
  lemma {:induction false} InsertSpec(c: Comparator, es: seq<int>, e: int)
    requires Ascending(c, es)
    ensures Ascending(c, Insert(c, es, e))
    ensures forall x :: x in Insert(c, es, e) <==> x in es || (x == e && !Holds(c, es, e))
    ensures Holds(c, es, e) ==> Insert(c, es, e) == es
    ensures Ranks(c, Insert(c, es, e)) == Ranks(c, es) + {Rank(c, e)}
    ensures |Insert(c, es, e)| == if Holds(c, es, e) then |es| else |es| + 1
    decreases |es|
  {
    if |es| == 0 {
    } else {
      var h, t := es[0], es[1..];
      assert es == [h] + t;
      AscendingCons(c, h, t);
      if Rank(c, e) < Rank(c, h) {
        AscendingCons(c, e, es);
        assert !Holds(c, es, e);
      } else if Rank(c, e) == Rank(c, h) {
        assert Holds(c, es, e);
      } else {
        InsertSpec(c, t, e);
        AscendingCons(c, h, Insert(c, t, e));
        assert Holds(c, es, e) <==> Holds(c, t, e);
        assert Insert(c, es, e) == [h] + Insert(c, t, e);
      }
    }
    RanksOfInsert(c, es, e);
  }

  lemma RanksOfInsert(c: Comparator, es: seq<int>, e: int)
    requires forall x :: x in Insert(c, es, e) <==> x in es || (x == e && !Holds(c, es, e))
    ensures Ranks(c, Insert(c, es, e)) == Ranks(c, es) + {Rank(c, e)}
  {
    var r := Insert(c, es, e);
    forall k | k in Ranks(c, es) + {Rank(c, e)} ensures k in Ranks(c, r) {
      if k == Rank(c, e) && !Holds(c, es, e) {
        assert e in r;
      } else {
        var x :| x in es && Rank(c, x) == k;
        assert x in r;
      }
    }
  }

  /** `remove` keeps the set ordered and drops exactly the element that
      compares equal to `e`. */
  lemma {:induction false} RemoveSpec(c: Comparator, es: seq<int>, e: int)
    requires Ascending(c, es)
    ensures Ascending(c, Remove(c, es, e))
    ensures forall x :: x in Remove(c, es, e) <==> x in es && Rank(c, x) != Rank(c, e)
    ensures !Holds(c, es, e) ==> Remove(c, es, e) == es
    decreases |es|
  {
    if |es| != 0 {
      var h, t := es[0], es[1..];
      assert es == [h] + t;
      AscendingCons(c, h, t);
      if Rank(c, h) != Rank(c, e) {
        RemoveSpec(c, t, e);
        AscendingCons(c, h, Remove(c, t, e));
        assert Remove(c, es, e) == [h] + Remove(c, t, e);
      }
    }
  }

  lemma {:induction false} InsertAllKeepsOrder(c: Comparator, es: seq<int>, xs: seq<int>)
    requires Ascending(c, es)
    ensures Ascending(c, InsertAll(c, es, xs))
    ensures Ranks(c, InsertAll(c, es, xs)) == Ranks(c, es) + Ranks(c, xs)
    decreases |xs|
  {
    if |xs| != 0 {
      InsertSpec(c, es, xs[0]);
      InsertAllKeepsOrder(c, Insert(c, es, xs[0]), xs[1..]);
      RanksSplit(c, xs);
    }
  }

  lemma RanksSplit(c: Comparator, xs: seq<int>)
    requires |xs| != 0
    ensures Ranks(c, xs) == {Rank(c, xs[0])} + Ranks(c, xs[1..])
  {
    assert xs == [xs[0]] + xs[1..];
  }

  lemma {:induction false} FirstOfRankIn(c: Comparator, s: seq<int>, x: int)
    requires FirstOfRank(c, s, x)
    ensures x in s
    decreases |s|
  {
    if s[0] != x {
      FirstOfRankIn(c, s[1..], x);
    }
  }

  lemma {:induction false} FirstOfRankSplit(c: Comparator, p: seq<int>, t: seq<int>, x: int)
    requires Ascending(c, p)
    ensures FirstOfRank(c, p + t, x) <==> x in p || (Rank(c, x) !in Ranks(c, p) && FirstOfRank(c, t, x))
    decreases |p|
  {
    if |p| == 0 {
      assert p + t == t;
    } else {
      var h, p' := p[0], p[1..];
      assert p == [h] + p';
      assert (p + t)[0] == h && (p + t)[1..] == p' + t;
      AscendingCons(c, h, p');
      RanksSplit(c, p);
      if Rank(c, h) != Rank(c, x) {
        FirstOfRankSplit(c, p', t, x);
      }
    }
  }

  /** Adding a sequence of elements keeps, for every comparator class, the
      element that came first: what is already in the set, then the first of
      `xs` in that class ("only the first duplicate element is added"). */
  lemma {:induction false} InsertAllFirstWins(c: Comparator, es: seq<int>, xs: seq<int>)
    requires Ascending(c, es)
    ensures forall x :: x in InsertAll(c, es, xs) <==> FirstOfRank(c, es + xs, x)
    decreases |xs|
  {
    if |xs| == 0 {
      assert es + xs == es;
      forall x ensures x in es <==> FirstOfRank(c, es, x) {
        FirstOfRankSplit(c, es, [], x);
        assert es + [] == es;
      }
    } else {
      var x0, rest := xs[0], xs[1..];
      InsertSpec(c, es, x0);
      InsertAllFirstWins(c, Insert(c, es, x0), rest);
      assert xs == [x0] + rest;
      forall x ensures x in InsertAll(c, es, xs) <==> FirstOfRank(c, es + xs, x) {
        FirstWinsStep(c, es, x0, rest, x);
      }
    }
  }

  /** One element of `InsertAllFirstWins`'s step: `x0` goes in first, then
      the rest. */
  lemma FirstWinsStep(c: Comparator, es: seq<int>, x0: int, rest: seq<int>, x: int)
    requires Ascending(c, es) && Ascending(c, Insert(c, es, x0))
    requires forall y :: y in Insert(c, es, x0) <==> y in es || (y == x0 && !Holds(c, es, x0))
    requires Ranks(c, Insert(c, es, x0)) == Ranks(c, es) + {Rank(c, x0)}
    ensures FirstOfRank(c, Insert(c, es, x0) + rest, x) <==> FirstOfRank(c, es + ([x0] + rest), x)
  {
    FirstOfRankSplit(c, Insert(c, es, x0), rest, x);
    FirstOfRankSplit(c, es, [x0] + rest, x);
    FirstOfRankSplit(c, [x0], rest, x);
    assert Ranks(c, [x0]) == {Rank(c, x0)};
    if x == x0 && x !in es {
      HoldsIsRanks(c, es, x0);
    }
  }

  lemma HoldsIsRanks(c: Comparator, es: seq<int>, e: int)
    ensures Holds(c, es, e) <==> Rank(c, e) in Ranks(c, es)
  {
    if Rank(c, e) in Ranks(c, es) {
      var x :| x in es && Rank(c, x) == Rank(c, e);
    }
  }

  /** Adding elements that are all already present changes nothing. */
  lemma {:induction false} InsertAllPresent(c: Comparator, es: seq<int>, xs: seq<int>)
    requires Ascending(c, es)
    requires forall x :: x in xs ==> Holds(c, es, x)
    ensures InsertAll(c, es, xs) == es
    decreases |xs|
  {
    if |xs| != 0 {
      InsertSpec(c, es, xs[0]);
      assert forall x :: x in xs[1..] ==> x in xs;
      InsertAllPresent(c, es, xs[1..]);
    }
  }

  /** Adding the same elements twice has the effect of adding them once. */
  lemma InsertAllIdempotent(c: Comparator, es: seq<int>, xs: seq<int>)
    requires Ascending(c, es)
    ensures InsertAll(c, InsertAll(c, es, xs), xs) == InsertAll(c, es, xs)
  {
    var r := InsertAll(c, es, xs);
    InsertAllKeepsOrder(c, es, xs);
    forall x | x in xs ensures Holds(c, r, x) {
      assert Rank(c, x) in Ranks(c, r);
    }
    InsertAllPresent(c, r, xs);
  }

  /** Two ordered sequences of which the second holds only elements of the
      first are no longer than it, and equal to it when equally long. */
  lemma {:induction false} AscendingSubset(c: Comparator, a: seq<int>, b: seq<int>)
    requires Ascending(c, a) && Ascending(c, b)
    requires forall x :: x in b ==> x in a
    ensures |b| <= |a|
    ensures |b| == |a| ==> a == b
    decreases |a|
  {
    if |b| != 0 {
      assert b[0] in b && b[0] in a;
      var h, t := a[0], a[1..];
      assert a == [h] + t;
      AscendingCons(c, h, t);
      AscendingCons(c, b[0], b[1..]);
      assert b == [b[0]] + b[1..];
      assert Rank(c, h) <= Rank(c, b[0]) by {
        assert b[0] in a;
      }
      if h == b[0] {
        forall x | x in b[1..] ensures x in t {
          assert x in a && Rank(c, b[0]) < Rank(c, x);
        }
        AscendingSubset(c, t, b[1..]);
      } else {
        forall x | x in b ensures x in t {
          assert x in a;
        }
        AscendingSubset(c, t, b);
      }
    }
  }

  /** A tree set is determined by its comparator and its elements. */
  lemma AscendingUnique(c: Comparator, a: seq<int>, b: seq<int>)
    requires Ascending(c, a) && Ascending(c, b)
    requires forall x :: x in a <==> x in b
    ensures a == b
  {
    AscendingSubset(c, a, b);
    AscendingSubset(c, b, a);
  }

  // ---------------------------------------------------------------------
  // Set equality, as `AbstractSet.equals`

  /** `a.equals(b)` for a `TreeSet` receiver `a`: equal sizes, and every
      element of `b` is contained in `a` under `a`'s comparator. */
  predicate SetEquals(a: SortedSetValue, b: SortedSetValue)
  {
    |a.elements| == |b.elements| && forall e :: e in b.elements ==> Holds(a.comparator, a.elements, e)
  }

  /** Under a comparator consistent with equals, set equality is equality of
      the element sequences. */
  lemma SetEqualsConsistentComparator(a: SortedSetValue, b: SortedSetValue)
    requires WellFormed(a) && WellFormed(b)
    requires a.comparator == b.comparator && a.comparator != ByMagnitude
    ensures SetEquals(a, b) <==> a == b
  {
    var c := a.comparator;
    if SetEquals(a, b) {
      forall x | x in b.elements ensures x in a.elements {
        var y :| y in a.elements && Rank(c, y) == Rank(c, x);
      }
      AscendingSubset(c, a.elements, b.elements);
    }
    if a == b {
      forall e | e in b.elements ensures Holds(a.comparator, a.elements, e) {
      }
    }
  }

  /** Under `ByMagnitude`, sets holding 3 and -3 are equal without being the
      same set. */
  lemma SetEqualsByMagnitudeExample()
    ensures SetEquals(SortedSetValue(ByMagnitude, [3]), SortedSetValue(ByMagnitude, [-3]))
    ensures SortedSetValue(ByMagnitude, [3]) != SortedSetValue(ByMagnitude, [-3])
  {
    assert Rank(ByMagnitude, 3) == Rank(ByMagnitude, -3);
    assert 3 in [3];
  }

  // ---------------------------------------------------------------------
  // The builder field: `null` or a tree set

  /** A builder-field operation's new field and outcome. */
  datatype SetStep = SetStep(field: Option<SortedSetValue>, outcome: Outcome)

  /** `addConvertToTreeSet`: a `null` field becomes an empty set under the
      natural ordering; an existing set is kept. */
  function Materialise(field: Option<SortedSetValue>): (s: SortedSetValue)
    ensures field.Some? ==> s == field.value
    ensures field.None? ==> s.comparator == Natural && s.elements == []
  {
    if field.Some? then field.value else SortedSetValue(Natural, [])
  }

  /** `toString` of a set. */
  function ShowSet(s: SortedSetValue): string
  {
    ShowList(seq(|s.elements|, k requires 0 <= k < |s.elements| => IntToString(s.elements[k])))
  }

  /** `setComparator(comparator)`: fails once the set exists; otherwise the
      set is created, empty, under the given comparator (`null` meaning the
      natural ordering). */
  function SetComparator(field: Option<SortedSetValue>, comparator: Option<Comparator>): SetStep
  {
    if field.Some? then
      SetStep(field, Thrown(IllegalState("Comparator already set for " + ShowSet(field.value))))
    else
      SetStep(Some(SortedSetValue(if comparator.Some? then comparator.value else Natural, [])), Done)
  }

  /** `add(element)` for a reference element type: the set is created
      first; a `null` element then throws, leaving the (possibly new) set
      unchanged. */
  function Add(field: Option<SortedSetValue>, element: Option<int>): SetStep
  {
    var s := Materialise(field);
    if element.None? then SetStep(Some(s), Thrown(NullPointer))
    else SetStep(Some(SortedSetValue(s.comparator, Insert(s.comparator, s.elements, element.value))), Done)
  }

  /** `addAll(elements)` and the varargs `add`: `add` on each element in
      order, stopping at the first that throws. */
  function AddAll(field: Option<SortedSetValue>, elements: seq<Option<int>>): SetStep
    decreases |elements|
  {
    if |elements| == 0 then SetStep(field, Done)
    else
      var first := Add(field, elements[0]);
      if first.outcome.Thrown? then first else AddAll(first.field, elements[1..])
  }

  /** `addAll(elements)` when the element type unboxes: each element is
      unboxed before the primitive `add` runs, so a `null` element throws
      without creating the set. The varargs `add` then takes primitives and
      the unboxed `add` and `remove` are `Add` and `RemoveElement` on `Some`. */
  function AddAllUnboxed(field: Option<SortedSetValue>, elements: seq<Option<int>>): SetStep
    decreases |elements|
  {
    if |elements| == 0 then SetStep(field, Done)
    else if elements[0].None? then SetStep(field, Thrown(NullPointer))
    else AddAllUnboxed(Add(field, elements[0]).field, elements[1..])
  }

  /** `remove(element)` for a reference element type: the set is created
      first; a `null` element then throws. */
  function RemoveElement(field: Option<SortedSetValue>, element: Option<int>): SetStep
  {
    var s := Materialise(field);
    if element.None? then SetStep(Some(s), Thrown(NullPointer))
    else SetStep(Some(SortedSetValue(s.comparator, Remove(s.comparator, s.elements, element.value))), Done)
  }

  /** `clear()`: empties an existing set, keeping its comparator; a `null`
      field stays `null`. */
  function Clear(field: Option<SortedSetValue>): (r: Option<SortedSetValue>)
  {
    if field.None? then None else Some(SortedSetValue(field.value.comparator, []))
  }

  /** What a user-supplied mutator does to the set it is handed. */
  datatype SetOp = AddOp(e: int) | RemoveOp(e: int)

  function ApplyOps(s: SortedSetValue, ops: seq<SetOp>): SortedSetValue
    decreases |ops|
  {
    if |ops| == 0 then s
    else
      var next := match ops[0]
        case AddOp(e) => Insert(s.comparator, s.elements, e)
        case RemoveOp(e) => Remove(s.comparator, s.elements, e);
      ApplyOps(SortedSetValue(s.comparator, next), ops[1..])
  }

  /** `mutateX(mutator)`: the set is created first, then handed to the
      mutator; a `null` mutator throws. */
  function Mutate(field: Option<SortedSetValue>, mutator: Option<seq<SetOp>>): SetStep
  {
    var s := Materialise(field);
    if mutator.None? then SetStep(Some(s), Thrown(NullPointer))
    else SetStep(Some(ApplyOps(s, mutator.value)), Done)
  }

  /** The set a built value (or partial) holds: an empty naturally-ordered
      set for a `null` field, otherwise a copy under the same comparator. */
  function FinalValue(field: Option<SortedSetValue>): (s: SortedSetValue)
  {
    Materialise(field)
  }

  /** Merging another set's elements in (`addAll(other)`): an empty source
      leaves even a `null` field alone. */
  function MergeElements(field: Option<SortedSetValue>, xs: seq<int>): Option<SortedSetValue>
  {
    if |xs| == 0 then field
    else
      var s := Materialise(field);
      Some(SortedSetValue(s.comparator, InsertAll(s.comparator, s.elements, xs)))
  }

  // ---------------------------------------------------------------------
  // Lemmas about the builder-field operations

  /** Whatever a mutator adds and removes, the set stays in order under
      its comparator. */
  lemma {:induction false} ApplyOpsKeepsOrder(s: SortedSetValue, ops: seq<SetOp>)
    requires WellFormed(s)
    ensures WellFormed(ApplyOps(s, ops)) && ApplyOps(s, ops).comparator == s.comparator
    decreases |ops|
  {
    if |ops| > 0 {
      match ops[0] {
        case AddOp(e) =>
          InsertSpec(s.comparator, s.elements, e);
          ApplyOpsKeepsOrder(SortedSetValue(s.comparator, Insert(s.comparator, s.elements, e)), ops[1..]);
        case RemoveOp(e) =>
          RemoveSpec(s.comparator, s.elements, e);
          ApplyOpsKeepsOrder(SortedSetValue(s.comparator, Remove(s.comparator, s.elements, e)), ops[1..]);
      }
    }
  }

  /** Merging elements in keeps the set ordered. */
  lemma MergeElementsKeepsOrder(field: Option<SortedSetValue>, xs: seq<int>)
    requires field.Some? ==> WellFormed(field.value)
    ensures MergeElements(field, xs).Some? ==> WellFormed(MergeElements(field, xs).value)
  {
    if |xs| != 0 {
      var s := Materialise(field);
      InsertAllKeepsOrder(s.comparator, s.elements, xs);
    }
  }

  /** Every field operation keeps the set ordered under its comparator. */
  lemma {:induction false} AddAllKeepsOrder(field: Option<SortedSetValue>, elements: seq<Option<int>>)
    requires field.Some? ==> WellFormed(field.value)
    ensures var r := AddAll(field, elements); r.field.Some? ==> WellFormed(r.field.value)
    decreases |elements|
  {
    if |elements| != 0 {
      var s := Materialise(field);
      if elements[0].Some? {
        InsertSpec(s.comparator, s.elements, elements[0].value);
      }
      AddAllKeepsOrder(Add(field, elements[0]).field, elements[1..]);
    }
  }

  /** `addAll` of non-null elements is `add` of each, which is `InsertAll`
      on the materialised set; a `null` element stops it with the earlier
      elements already added. */
  lemma {:induction false} AddAllIsInsertAll(field: Option<SortedSetValue>, xs: seq<int>)
    ensures AddAll(field, seq(|xs|, k requires 0 <= k < |xs| => Some(xs[k]))) == SetStep(MergeElements(field, xs), Done)
    decreases |xs|
  {
    var wrapped := seq(|xs|, k requires 0 <= k < |xs| => Some(xs[k]));
    if |xs| != 0 {
      var s := Materialise(field);
      var next := Some(SortedSetValue(s.comparator, Insert(s.comparator, s.elements, xs[0])));
      assert Add(field, wrapped[0]) == SetStep(next, Done);
      var rest := seq(|xs[1..]|, k requires 0 <= k < |xs[1..]| => Some(xs[1..][k]));
      assert wrapped[1..] == rest;
      AddAllIsInsertAll(next, xs[1..]);
      if |xs[1..]| == 0 {
        assert InsertAll(s.comparator, s.elements, xs) == Insert(s.comparator, s.elements, xs[0]);
      }
    }
  }

  /** A `null` element throws `NullPointerException` and the elements before
      it stay added. */
  lemma {:induction false} AddAllStopsAtNull(field: Option<SortedSetValue>, xs: seq<int>, rest: seq<Option<int>>)
    requires |xs| > 0
    ensures var wrapped := seq(|xs|, k requires 0 <= k < |xs| => Some(xs[k]));
      AddAll(field, wrapped + [None] + rest) == SetStep(MergeElements(field, xs), Thrown(NullPointer))
    decreases |xs|
  {
    var wrapped := seq(|xs|, k requires 0 <= k < |xs| => Some(xs[k]));
    var s := Materialise(field);
    var next := Some(SortedSetValue(s.comparator, Insert(s.comparator, s.elements, xs[0])));
    assert (wrapped + [None] + rest)[0] == Some(xs[0]);
    assert Add(field, Some(xs[0])) == SetStep(next, Done);
    if |xs| == 1 {
      assert InsertAll(s.comparator, s.elements, xs) == Insert(s.comparator, s.elements, xs[0]);
      assert (wrapped + [None] + rest)[1..] == [None] + rest;
      assert Add(next, None) == SetStep(next, Thrown(NullPointer));
    } else {
      var tail := seq(|xs[1..]|, k requires 0 <= k < |xs[1..]| => Some(xs[1..][k]));
      assert (wrapped + [None] + rest)[1..] == tail + [None] + rest;
      AddAllStopsAtNull(next, xs[1..], rest);
    }
  }

  /** For an element type that unboxes, `addAll` of non-null elements is
      the same as for a reference element type: the merge of the elements. */
  lemma {:induction false} UnboxedAgreesOnNonNull(field: Option<SortedSetValue>, xs: seq<int>)
    ensures var wrapped := seq(|xs|, k requires 0 <= k < |xs| => Some(xs[k]));
      AddAllUnboxed(field, wrapped) == AddAll(field, wrapped) == SetStep(MergeElements(field, xs), Done)
    decreases |xs|
  {
    var wrapped := seq(|xs|, k requires 0 <= k < |xs| => Some(xs[k]));
    AddAllIsInsertAll(field, xs);
    if |xs| != 0 {
      var next := Add(field, Some(xs[0]));
      assert next.outcome == Done;
      var rest := seq(|xs[1..]|, k requires 0 <= k < |xs[1..]| => Some(xs[1..][k]));
      assert wrapped[1..] == rest;
      UnboxedAgreesOnNonNull(next.field, xs[1..]);
    }
  }

  /** For an element type that unboxes, a `null` element throws
      `NullPointerException` with the elements before it added; with none
      before it the field is left exactly as it was, even when `null`. */
  lemma {:induction false} UnboxedStopsAtNull(field: Option<SortedSetValue>, xs: seq<int>, rest: seq<Option<int>>)
    ensures var wrapped := seq(|xs|, k requires 0 <= k < |xs| => Some(xs[k]));
      AddAllUnboxed(field, wrapped + [None] + rest) == SetStep(MergeElements(field, xs), Thrown(NullPointer))
    decreases |xs|
  {
    var wrapped := seq(|xs|, k requires 0 <= k < |xs| => Some(xs[k]));
    if |xs| == 0 {
      assert wrapped + [None] + rest == [None] + rest;
    } else {
      var s := Materialise(field);
      var next := Some(SortedSetValue(s.comparator, Insert(s.comparator, s.elements, xs[0])));
      assert (wrapped + [None] + rest)[0] == Some(xs[0]);
      assert Add(field, Some(xs[0])).field == next;
      var tail := seq(|xs[1..]|, k requires 0 <= k < |xs[1..]| => Some(xs[1..][k]));
      assert (wrapped + [None] + rest)[1..] == tail + [None] + rest;
      UnboxedStopsAtNull(next, xs[1..], rest);
      if |xs| == 1 {
        assert InsertAll(s.comparator, s.elements, xs) == Insert(s.comparator, s.elements, xs[0]);
      }
    }
  }

  /** The two branches differ on a leading `null` into a builder whose set
      does not yet exist: for a reference element type the set is created
      before the throw, so a later `setComparator` fails; for an element type
      that unboxes the set stays `null` and `setComparator` still succeeds. */
  lemma LeadingNullBranchesDiffer(rest: seq<Option<int>>, comparator: Option<Comparator>)
    ensures AddAll(None, [None] + rest) == SetStep(Some(SortedSetValue(Natural, [])), Thrown(NullPointer))
    ensures SetComparator(AddAll(None, [None] + rest).field, comparator).outcome.Thrown?
    ensures AddAllUnboxed(None, [None] + rest) == SetStep(None, Thrown(NullPointer))
    ensures SetComparator(AddAllUnboxed(None, [None] + rest).field, comparator).outcome == Done
  {
  }

  /** `setComparator` succeeds exactly when the set has not been created,
      and then leaves an empty set under the requested ordering. */
  lemma SetComparatorOnlyFirst(field: Option<SortedSetValue>, comparator: Option<Comparator>)
    ensures SetComparator(field, comparator).outcome.Done? <==> field.None?
    ensures field.Some? ==> SetComparator(field, comparator).field == field
    ensures field.None? ==> SetComparator(field, comparator).field
                            == Some(SortedSetValue(if comparator.Some? then comparator.value else Natural, []))
  {
  }

  /** Once any add, remove, mutate or getter call has created the set, the
      comparator can no longer be set. */
  lemma ComparatorFixedAfterAdd(field: Option<SortedSetValue>, e: Option<int>, comparator: Option<Comparator>)
    ensures SetComparator(Add(field, e).field, comparator).outcome.Thrown?
  {
  }

  /** `clear` is idempotent, keeps the comparator, and leaves no elements. */
  lemma ClearSpec(field: Option<SortedSetValue>)
    ensures Clear(Clear(field)) == Clear(field)
    ensures Clear(field).Some? <==> field.Some?
    ensures field.Some? ==> (Clear(field).value.comparator == field.value.comparator
                             && Clear(field).value.elements == [])
  {
  }

  /** Removing what was just added (when it was new) restores the set. */
  lemma RemoveUndoesAdd(s: SortedSetValue, e: int)
    requires WellFormed(s)
    requires !Holds(s.comparator, s.elements, e)
    ensures Remove(s.comparator, Insert(s.comparator, s.elements, e), e) == s.elements
  {
    var c := s.comparator;
    InsertSpec(c, s.elements, e);
    var r := Remove(c, Insert(c, s.elements, e), e);
    RemoveSpec(c, Insert(c, s.elements, e), e);
    assert forall x :: x in r <==> x in s.elements;
    AscendingUnique(c, r, s.elements);
  }
}
