/** Normalising the order of Built-in and Personal members
    (packages/provider/src/owned-order.ts, packages/provider/src/resolver.ts:355-376). */
module Orders {
  /** First occurrences only. */
  function Unique(values: seq<string>): seq<string> {
    if values == [] then []
    else
      var last, before := values[|values| - 1], Unique(values[..|values| - 1]);
      if last in before then before else before + [last]
  }

  function Keep(values: seq<string>, ids: seq<string>): seq<string> {
    if values == [] then []
    else Keep(values[..|values| - 1], ids) + if values[|values| - 1] in ids then [values[|values| - 1]] else []
  }

  function Drop(values: seq<string>, ids: seq<string>): seq<string> {
    if values == [] then []
    else Drop(values[..|values| - 1], ids) + if values[|values| - 1] in ids then [] else [values[|values| - 1]]
  }

  /** Unordered Built-in members, then the requested order, then unordered Personal members. */
  function OwnedOrder(builtinIds: seq<string>, personalIds: seq<string>, requested: seq<string>): seq<string> {
    var builtin := Unique(builtinIds);
    var personal := Drop(Unique(personalIds), builtin);
    var ordered := Keep(Unique(requested), builtin + personal);
    Drop(builtin, ordered) + ordered + Drop(personal, ordered)
  }

  ghost predicate NoRepeats(values: seq<string>) {
    forall i, j :: 0 <= i < j < |values| ==> values[i] != values[j]
  }

  lemma {:induction false} UniqueIsUnique(values: seq<string>)
    ensures NoRepeats(Unique(values))
    ensures forall v :: v in Unique(values) <==> v in values
  {
    if values != [] {
      UniqueIsUnique(values[..|values| - 1]);
      assert values == values[..|values| - 1] + [values[|values| - 1]];
    }
  }

  lemma {:induction false} KeepKeeps(values: seq<string>, ids: seq<string>)
    ensures forall v :: v in Keep(values, ids) <==> v in values && v in ids
    ensures NoRepeats(values) ==> NoRepeats(Keep(values, ids))
  {
    if values != [] {
      KeepKeeps(values[..|values| - 1], ids);
      assert values == values[..|values| - 1] + [values[|values| - 1]];
      assert NoRepeats(values) ==> NoRepeats(values[..|values| - 1]) && values[|values| - 1] !in values[..|values| - 1];
    }
  }

  lemma {:induction false} DropDrops(values: seq<string>, ids: seq<string>)
    ensures forall v :: v in Drop(values, ids) <==> v in values && v !in ids
    ensures NoRepeats(values) ==> NoRepeats(Drop(values, ids))
  {
    if values != [] {
      DropDrops(values[..|values| - 1], ids);
      assert values == values[..|values| - 1] + [values[|values| - 1]];
      assert NoRepeats(values) ==> NoRepeats(values[..|values| - 1]) && values[|values| - 1] !in values[..|values| - 1];
    }
  }

  /** Every member exactly once and nothing else, whatever order was requested. */
  lemma OwnedOrderIsPermutation(builtinIds: seq<string>, personalIds: seq<string>, requested: seq<string>)
    ensures var r := OwnedOrder(builtinIds, personalIds, requested);
      NoRepeats(r) && forall v :: v in r <==> v in builtinIds || v in personalIds
  {
    hide Unique, Keep, Drop;
    var builtin := Unique(builtinIds);
    var personal := Drop(Unique(personalIds), builtin);
    var ordered := Keep(Unique(requested), builtin + personal);
    UniqueIsUnique(builtinIds);
    UniqueIsUnique(personalIds);
    DropDrops(Unique(personalIds), builtin);
    UniqueIsUnique(requested);
    KeepKeeps(Unique(requested), builtin + personal);
    DropDrops(builtin, ordered);
    DropDrops(personal, ordered);
    JoinNoRepeats(Drop(builtin, ordered), ordered);
    JoinNoRepeats(Drop(builtin, ordered) + ordered, Drop(personal, ordered));
  }

  lemma JoinNoRepeats(a: seq<string>, b: seq<string>)
    requires NoRepeats(a) && NoRepeats(b) && forall v :: v in a ==> v !in b
    ensures NoRepeats(a + b)
  {
    forall i, j | 0 <= i < j < |a + b| ensures (a + b)[i] != (a + b)[j] {
      if i < |a| <= j {
        assert a[i] in a && b[j - |a|] in b;
      }
    }
  }

  lemma {:induction false} UniqueOfUnique(values: seq<string>)
    requires NoRepeats(values)
    ensures Unique(values) == values
  {
    if values != [] {
      var before := values[..|values| - 1];
      UniqueOfUnique(before);
      assert values[|values| - 1] !in before;
      assert values == before + [values[|values| - 1]];
    }
  }

  lemma {:induction false} KeepAll(values: seq<string>, ids: seq<string>)
    requires forall v :: v in values ==> v in ids
    ensures Keep(values, ids) == values && Drop(values, ids) == []
  {
    if values != [] {
      var before, last := values[..|values| - 1], values[|values| - 1];
      assert last in values;
      forall v | v in before ensures v in ids {
        assert v in values;
      }
      KeepAll(before, ids);
      assert values == before + [last];
    }
  }

  /** Normalising a normalised order changes nothing. */
  lemma OwnedOrderIsIdempotent(builtinIds: seq<string>, personalIds: seq<string>, requested: seq<string>)
    ensures var r := OwnedOrder(builtinIds, personalIds, requested); OwnedOrder(builtinIds, personalIds, r) == r
  {
    hide Unique, Keep, Drop;
    var r := OwnedOrder(builtinIds, personalIds, requested);
    OwnedOrderIsPermutation(builtinIds, personalIds, requested);
    UniqueOfUnique(r);
    var builtin := Unique(builtinIds);
    var personal := Drop(Unique(personalIds), builtin);
    UniqueIsUnique(builtinIds);
    UniqueIsUnique(personalIds);
    DropDrops(Unique(personalIds), builtin);
    KeepAll(r, builtin + personal);
    KeepAll(builtin, r);
    KeepAll(personal, r);
    assert [] + r + [] == r;
  }

  /** Position in a list without repeats. */
  ghost predicate Before(values: seq<string>, x: string, y: string) {
    exists i, j :: 0 <= i < j < |values| && values[i] == x && values[j] == y
  }

  /** First occurrences in the requested list come in the same order in the result. */
  lemma RequestedOrderIsKept(builtinIds: seq<string>, personalIds: seq<string>, requested: seq<string>, x: string, y: string)
    requires Before(Unique(requested), x, y)
    requires (x in builtinIds || x in personalIds) && (y in builtinIds || y in personalIds)
    ensures Before(OwnedOrder(builtinIds, personalIds, requested), x, y)
  {
    hide Unique, Keep, Drop;
    var builtin := Unique(builtinIds);
    var personal := Drop(Unique(personalIds), builtin);
    UniqueIsUnique(builtinIds);
    UniqueIsUnique(personalIds);
    DropDrops(Unique(personalIds), builtin);
    KeepKeepsOrder(Unique(requested), builtin + personal, x, y);
    var ordered := Keep(Unique(requested), builtin + personal);
    var i, j :| 0 <= i < j < |ordered| && ordered[i] == x && ordered[j] == y;
    var front, r := Drop(builtin, ordered), OwnedOrder(builtinIds, personalIds, requested);
    assert r[|front| + i] == x && r[|front| + j] == y;
  }

  lemma {:induction false} KeepKeepsOrder(values: seq<string>, ids: seq<string>, x: string, y: string)
    requires Before(values, x, y) && x in ids && y in ids
    ensures Before(Keep(values, ids), x, y)
  {
    var i, j :| 0 <= i < j < |values| && values[i] == x && values[j] == y;
    var before, kept := values[..|values| - 1], Keep(values, ids);
    var head := Keep(before, ids);
    if j < |values| - 1 {
      assert before[i] == x && before[j] == y;
      KeepKeepsOrder(before, ids, x, y);
      var m, n :| 0 <= m < n < |head| && head[m] == x && head[n] == y;
      assert kept[m] == x && kept[n] == y;
    } else {
      KeepKeeps(before, ids);
      assert before[i] == x;
      var m :| 0 <= m < |head| && head[m] == x;
      assert kept[m] == x && kept[|head|] == y;
    }
  }

  // ---------- exactly which order ----------

  /** The first occurrence of x comes before every occurrence of y. */
  ghost predicate ComesFirst(values: seq<string>, x: string, y: string) {
    exists i :: 0 <= i < |values| && values[i] == x && y !in values[..i]
  }

  /** Built-in members that nobody ordered, requested members, and Personal ones that nobody ordered. */
  ghost function Group(builtinIds: seq<string>, requested: seq<string>, v: string): nat {
    if v in requested then 1 else if v in builtinIds then 0 else 2
  }

  ghost function Source(builtinIds: seq<string>, personalIds: seq<string>, requested: seq<string>, group: nat): seq<string> {
    if group == 0 then builtinIds else if group == 1 then requested else personalIds
  }

  /** By group first, and within a group by the first occurrences in the list it comes from. */
  ghost predicate Ranked(builtinIds: seq<string>, personalIds: seq<string>, requested: seq<string>, x: string, y: string) {
    var g, h := Group(builtinIds, requested, x), Group(builtinIds, requested, y);
    g < h || (g == h && ComesFirst(Source(builtinIds, personalIds, requested, g), x, y))
  }

  lemma ComesFirstOneMore(values: seq<string>, last: string, x: string, y: string)
    ensures ComesFirst(values + [last], x, y) <==> ComesFirst(values, x, y) || (last == x && y !in values)
  {
    var all := values + [last];
    if ComesFirst(values, x, y) {
      var i :| 0 <= i < |values| && values[i] == x && y !in values[..i];
      assert all[i] == x && all[..i] == values[..i];
    }
    if last == x && y !in values {
      assert all[|values|] == x && all[..|values|] == values;
    }
    if ComesFirst(all, x, y) {
      var i :| 0 <= i < |all| && all[i] == x && y !in all[..i];
      if i < |values| {
        assert values[i] == x && values[..i] == all[..i];
      } else {
        assert all[..i] == values;
      }
    }
  }

  lemma {:induction false} UniqueKeepsFirst(values: seq<string>, x: string, y: string)
    requires ComesFirst(values, x, y) && y in values && x != y
    ensures Before(Unique(values), x, y)
  {
    hide ComesFirst;
    if values != [] {
      var before, last := values[..|values| - 1], values[|values| - 1];
      assert values == before + [last];
      ComesFirstOneMore(before, last, x, y);
      UniqueIsUnique(before);
      if y in before {
        UniqueKeepsFirst(before, x, y);
        BeforeInLonger(Unique(before), Unique(values), x, y);
      } else {
        assert x in before by { FirstIsThere(before, x, y); }
        AcrossTheSeam(Unique(before), [y], x, y);
      }
    }
  }

  lemma FirstIsThere(values: seq<string>, x: string, y: string)
    requires ComesFirst(values, x, y)
    ensures x in values
  {
  }

  lemma BeforeInLonger(values: seq<string>, longer: seq<string>, x: string, y: string)
    requires Before(values, x, y) && values <= longer
    ensures Before(longer, x, y)
  {
    var i, j :| 0 <= i < j < |values| && values[i] == x && values[j] == y;
    assert longer[i] == x && longer[j] == y;
  }

  lemma BeforeBehind(front: seq<string>, values: seq<string>, x: string, y: string)
    requires Before(values, x, y)
    ensures Before(front + values, x, y)
  {
    var i, j :| 0 <= i < j < |values| && values[i] == x && values[j] == y;
    assert (front + values)[|front| + i] == x && (front + values)[|front| + j] == y;
  }

  lemma {:induction false} DropKeepsOrder(values: seq<string>, ids: seq<string>, x: string, y: string)
    requires Before(values, x, y) && x !in ids && y !in ids
    ensures Before(Drop(values, ids), x, y)
  {
    var i, j :| 0 <= i < j < |values| && values[i] == x && values[j] == y;
    var before := values[..|values| - 1];
    if j < |values| - 1 {
      assert before[i] == x && before[j] == y;
      DropKeepsOrder(before, ids, x, y);
      BeforeInLonger(Drop(before, ids), Drop(values, ids), x, y);
    } else {
      DropDrops(before, ids);
      assert before[i] == x;
      AcrossTheSeam(Drop(before, ids), [y], x, y);
    }
  }

  lemma RankedIsBefore(builtinIds: seq<string>, personalIds: seq<string>, requested: seq<string>, x: string, y: string)
    requires x != y && (x in builtinIds || x in personalIds) && (y in builtinIds || y in personalIds)
    requires Ranked(builtinIds, personalIds, requested, x, y)
    ensures Before(OwnedOrder(builtinIds, personalIds, requested), x, y)
  {
    hide Unique, Keep, Drop, ComesFirst, Before;
    var builtin := Unique(builtinIds);
    var personal := Drop(Unique(personalIds), builtin);
    var ordered := Keep(Unique(requested), builtin + personal);
    UniqueIsUnique(builtinIds);
    UniqueIsUnique(personalIds);
    UniqueIsUnique(requested);
    DropDrops(Unique(personalIds), builtin);
    KeepKeeps(Unique(requested), builtin + personal);
    DropDrops(builtin, ordered);
    DropDrops(personal, ordered);
    var first, last := Drop(builtin, ordered), Drop(personal, ordered);
    var g, h := Group(builtinIds, requested, x), Group(builtinIds, requested, y);
    assert first + ordered + last == first + (ordered + last);
    if g == 0 {
      if h == 0 {
        UniqueKeepsFirst(builtinIds, x, y);
        DropKeepsOrder(builtin, ordered, x, y);
        BeforeInLonger(first, first + (ordered + last), x, y);
      } else {
        AcrossTheSeam(first, ordered + last, x, y);
      }
    } else if g == 1 {
      if h == 1 {
        UniqueKeepsFirst(requested, x, y);
        KeepKeepsOrder(Unique(requested), builtin + personal, x, y);
        BeforeInLonger(ordered, ordered + last, x, y);
      } else {
        AcrossTheSeam(ordered, last, x, y);
      }
      BeforeBehind(first, ordered + last, x, y);
    } else {
      UniqueKeepsFirst(personalIds, x, y);
      DropKeepsOrder(Unique(personalIds), builtin, x, y);
      DropKeepsOrder(personal, ordered, x, y);
      BeforeBehind(ordered, last, x, y);
      BeforeBehind(first, ordered + last, x, y);
    }
  }

  lemma OneComesFirst(values: seq<string>, x: string, y: string)
    requires x != y && x in values
    ensures ComesFirst(values, x, y) || ComesFirst(values, y, x)
    decreases |values|
  {
    var before, last := values[..|values| - 1], values[|values| - 1];
    assert values == before + [last];
    ComesFirstOneMore(before, last, x, y);
    ComesFirstOneMore(before, last, y, x);
    if x in before {
      OneComesFirst(before, x, y);
    } else if y in before {
      OneComesFirst(before, y, x);
    }
  }

  lemma NotBothWays(values: seq<string>, x: string, y: string)
    requires NoRepeats(values) && Before(values, x, y)
    ensures !Before(values, y, x)
  {
  }

  /** Exactly the order of the result: of two members the first is the one of the earlier group (Built-in members that
      nobody ordered, then the requested ones, then Personal ones that nobody ordered), and within a group the one that
      occurs first in the list it comes from. */
  lemma OwnedOrderIff(builtinIds: seq<string>, personalIds: seq<string>, requested: seq<string>, x: string, y: string)
    requires x != y && (x in builtinIds || x in personalIds) && (y in builtinIds || y in personalIds)
    ensures Before(OwnedOrder(builtinIds, personalIds, requested), x, y) <==> Ranked(builtinIds, personalIds, requested, x, y)
  {
    hide OwnedOrder, Before, ComesFirst;
    if Ranked(builtinIds, personalIds, requested, x, y) {
      RankedIsBefore(builtinIds, personalIds, requested, x, y);
    } else {
      var group := Group(builtinIds, requested, x);
      OneComesFirst(Source(builtinIds, personalIds, requested, group), x, y);
      RankedIsBefore(builtinIds, personalIds, requested, y, x);
      OwnedOrderIsPermutation(builtinIds, personalIds, requested);
      NotBothWays(OwnedOrder(builtinIds, personalIds, requested), y, x);
    }
  }

  /** A Built-in member that nobody has ordered lands in front: before every requested member and before every
      member that is only Personal. */
  lemma NewBuiltinLandsInFront(builtinIds: seq<string>, personalIds: seq<string>, requested: seq<string>, added: string)
    requires added in builtinIds && added !in requested
    ensures var r := OwnedOrder(builtinIds, personalIds, requested);
      forall y :: y in r && (y in requested || y !in builtinIds) ==> Before(r, added, y)
  {
    hide Unique, Keep, Drop, Before;
    var builtin := Unique(builtinIds);
    var personal := Drop(Unique(personalIds), builtin);
    var ordered := Keep(Unique(requested), builtin + personal);
    UniqueIsUnique(builtinIds);
    UniqueIsUnique(requested);
    KeepKeeps(Unique(requested), builtin + personal);
    DropDrops(builtin, ordered);
    var front, back := Drop(builtin, ordered), ordered + Drop(personal, ordered);
    var r := OwnedOrder(builtinIds, personalIds, requested);
    assert r == front + back;
    OwnedOrderIsPermutation(builtinIds, personalIds, requested);
    forall y | y in r && (y in requested || y !in builtinIds) ensures Before(r, added, y) {
      assert y !in front && y in back;
      AcrossTheSeam(front, back, added, y);
    }
  }

  lemma AcrossTheSeam(front: seq<string>, back: seq<string>, x: string, y: string)
    requires x in front && y in back
    ensures Before(front + back, x, y)
  {
    var i :| 0 <= i < |front| && front[i] == x;
    var j :| 0 <= j < |back| && back[j] == y;
    assert (front + back)[i] == x && (front + back)[|front| + j] == y;
  }

  /** Wherever a Built-in member is inserted and whatever order was requested, the others stay as they were. */
  lemma NewBuiltinMovesNothing(before: seq<string>, added: string, after: seq<string>, personalIds: seq<string>, requested: seq<string>)
    ensures Drop(OwnedOrder(before + [added] + after, personalIds, requested), [added])
         == Drop(OwnedOrder(before + after, personalIds, requested), [added])
  {
    hide Unique, Keep, Drop;
    var more, fewer := Unique(before + [added] + after), Unique(before + after);
    UniqueWithout(before, added, after);
    OthersAreTheSame(more, fewer, added);
    var personal, personal' := Drop(Unique(personalIds), fewer), Drop(Unique(personalIds), more);
    DropWithout(Unique(personalIds), more, fewer, added);
    OthersAreTheSame(personal', personal, added);
    var ordered, ordered' := Keep(Unique(requested), fewer + personal), Keep(Unique(requested), more + personal');
    KeepWithout(Unique(requested), more + personal', fewer + personal, added);
    OthersAreTheSame(ordered', ordered, added);
    DropWithout(more, ordered', ordered, added);
    DropWithout(fewer, ordered', ordered, added);
    DropWithout(personal', ordered', ordered, added);
    DropWithout(personal, ordered', ordered, added);
    DropOfDrop(more, fewer, ordered, added);
    DropOfDrop(personal', personal, ordered, added);
    DropAppend(Drop(more, ordered') + ordered', Drop(personal', ordered'), [added]);
    DropAppend(Drop(more, ordered'), ordered', [added]);
    DropAppend(Drop(fewer, ordered) + ordered, Drop(personal, ordered), [added]);
    DropAppend(Drop(fewer, ordered), ordered, [added]);
  }

  lemma {:induction false} DropAppend(a: seq<string>, b: seq<string>, ids: seq<string>)
    ensures Drop(a + b, ids) == Drop(a, ids) + Drop(b, ids)
    decreases |b|
  {
    if b == [] {
      assert a + b == a;
    } else {
      var before, last := b[..|b| - 1], b[|b| - 1];
      DropAppend(a, before, ids);
      assert (a + b)[..|a + b| - 1] == a + before && (a + b)[|a + b| - 1] == last;
    }
  }

  /** Lists that agree without x have the same other members. */
  lemma OthersAreTheSame(a: seq<string>, b: seq<string>, x: string)
    requires Drop(a, [x]) == Drop(b, [x])
    ensures forall v :: v != x ==> (v in a <==> v in b)
  {
    hide Drop;
    DropDrops(a, [x]);
    DropDrops(b, [x]);
    forall v | v != x ensures v in a <==> v in b {
      assert v !in [x];
      assert v in a <==> v in Drop(a, [x]);
      assert v in b <==> v in Drop(b, [x]);
    }
  }

  lemma {:induction false} DropOfUnique(values: seq<string>, x: string)
    ensures Drop(Unique(values), [x]) == Unique(Drop(values, [x]))
  {
    if values != [] {
      var before, last := values[..|values| - 1], values[|values| - 1];
      DropOfUnique(before, x);
      assert values == before + [last];
      DropOfUniqueStep(before, last, x);
    }
  }

  lemma DropOfUniqueStep(before: seq<string>, last: string, x: string)
    requires Drop(Unique(before), [x]) == Unique(Drop(before, [x]))
    ensures Drop(Unique(before + [last]), [x]) == Unique(Drop(before + [last], [x]))
  {
    hide Drop, Unique;
    UniqueOneMore(before, last);
    DropOneMore(before, last, [x]);
    if last !in Unique(before) {
      DropOneMore(Unique(before), last, [x]);
    }
    if last == x {
      assert Drop(before, [x]) + [] == Drop(before, [x]) && Drop(Unique(before), [x]) + [] == Drop(Unique(before), [x]);
    } else {
      SameWithout(before, x, last);
      UniqueOneMore(Drop(before, [x]), last);
    }
  }

  lemma SameWithout(values: seq<string>, x: string, v: string)
    requires v != x
    ensures v in Unique(values) <==> v in Unique(Drop(values, [x]))
  {
    hide Unique, Drop;
    UniqueIsUnique(values);
    UniqueIsUnique(Drop(values, [x]));
    DropDrops(values, [x]);
  }

  lemma UniqueWithout(before: seq<string>, added: string, after: seq<string>)
    ensures Drop(Unique(before + [added] + after), [added]) == Drop(Unique(before + after), [added])
  {
    hide Unique;
    DropOfUnique(before + [added] + after, added);
    DropOfUnique(before + after, added);
    DropAppend(before + [added], after, [added]);
    DropAppend(before, [added], [added]);
    DropAppend(before, after, [added]);
    assert Drop([added], [added]) == [] && Drop(before, [added]) + [] == Drop(before, [added]);
  }

  lemma {:induction false} DropWithout(values: seq<string>, ids: seq<string>, others: seq<string>, x: string)
    requires forall v :: v != x ==> (v in ids <==> v in others)
    ensures Drop(Drop(values, ids), [x]) == Drop(Drop(values, others), [x])
  {
    if values != [] {
      var before, last := values[..|values| - 1], values[|values| - 1];
      DropWithout(before, ids, others, x);
      DropOneMore(Drop(before, ids), last, [x]);
      DropOneMore(Drop(before, others), last, [x]);
      assert last in [x] <==> last == x;
      assert Drop(before, ids) + [] == Drop(before, ids) && Drop(before, others) + [] == Drop(before, others);
    }
  }

  lemma {:induction false} KeepWithout(values: seq<string>, ids: seq<string>, others: seq<string>, x: string)
    requires forall v :: v != x ==> (v in ids <==> v in others)
    ensures Drop(Keep(values, ids), [x]) == Drop(Keep(values, others), [x])
  {
    if values != [] {
      var before, last := values[..|values| - 1], values[|values| - 1];
      KeepWithout(before, ids, others, x);
      DropOneMore(Keep(before, ids), last, [x]);
      DropOneMore(Keep(before, others), last, [x]);
      assert last in [x] <==> last == x;
      assert Keep(before, ids) + [] == Keep(before, ids) && Keep(before, others) + [] == Keep(before, others);
    }
  }

  /** Dropping in either order is the same. */
  lemma {:induction false} DropCommutes(values: seq<string>, ids: seq<string>, x: string)
    ensures Drop(Drop(values, ids), [x]) == Drop(Drop(values, [x]), ids)
  {
    if values != [] {
      var before, last := values[..|values| - 1], values[|values| - 1];
      DropCommutes(before, ids, x);
      DropOneMore(Drop(before, ids), last, [x]);
      DropOneMore(Drop(before, [x]), last, ids);
      assert Drop(before, ids) + [] == Drop(before, ids) && Drop(before, [x]) + [] == Drop(before, [x]);
    }
  }

  lemma DropOfDrop(a: seq<string>, b: seq<string>, ids: seq<string>, x: string)
    requires Drop(a, [x]) == Drop(b, [x])
    ensures Drop(Drop(a, ids), [x]) == Drop(Drop(b, ids), [x])
  {
    hide Drop;
    DropCommutes(a, ids, x);
    DropCommutes(b, ids, x);
  }

  lemma UniqueOneMore(values: seq<string>, added: string)
    ensures Unique(values + [added]) == if added in Unique(values) then Unique(values) else Unique(values) + [added]
  {
    assert (values + [added])[..|values|] == values;
  }

  lemma DropOneMore(values: seq<string>, added: string, ids: seq<string>)
    ensures Drop(values + [added], ids) == Drop(values, ids) + if added in ids then [] else [added]
  {
    assert (values + [added])[..|values|] == values;
  }

  /** The provider order: family members first, then the owned order of the rest. */
  function ProviderOrder(effective: seq<string>, family: seq<string>, builtin: seq<string>, personal: seq<string>,
                         requested: seq<string>): seq<string> {
    var familyIds := Keep(effective, family);
    var builtinIds := Drop(builtin, familyIds);
    var personalIds := Drop(Drop(personal, builtinIds), familyIds);
    familyIds + OwnedOrder(builtinIds, personalIds, requested)
  }

  /** When the effective keys are the union of both layers, the order is a permutation of them without repeats. */
  lemma ProviderOrderIsPermutation(effective: seq<string>, family: seq<string>, builtin: seq<string>, personal: seq<string>,
                                   requested: seq<string>)
    requires NoRepeats(effective) && forall v :: v in effective <==> v in builtin || v in personal
    ensures var r := ProviderOrder(effective, family, builtin, personal, requested);
      NoRepeats(r) && forall v :: v in r <==> v in effective
  {
    hide Keep, Drop, OwnedOrder;
    var familyIds := Keep(effective, family);
    KeepKeeps(effective, family);
    var builtinIds := Drop(builtin, familyIds);
    DropDrops(builtin, familyIds);
    DropDrops(personal, builtinIds);
    DropDrops(Drop(personal, builtinIds), familyIds);
    var personalIds := Drop(Drop(personal, builtinIds), familyIds);
    OwnedOrderIsPermutation(builtinIds, personalIds, requested);
    JoinNoRepeats(familyIds, OwnedOrder(builtinIds, personalIds, requested));
  }

  lemma {:induction false} DropKeepsFirst(values: seq<string>, ids: seq<string>, x: string, y: string)
    requires x !in ids && y !in ids
    ensures ComesFirst(Drop(values, ids), x, y) <==> ComesFirst(values, x, y)
  {
    hide ComesFirst;
    if values != [] {
      var before, last := values[..|values| - 1], values[|values| - 1];
      assert values == before + [last];
      DropKeepsFirst(before, ids, x, y);
      DropDrops(before, ids);
      ComesFirstOneMore(before, last, x, y);
      ComesFirstOneMore(Drop(before, ids), last, x, y);
      assert Drop(before, ids) + [] == Drop(before, ids);
    }
  }

  /** Exactly the provider order: family providers come first, in the order of the effective keys; the others follow as the
      owned order ranks them. */
  lemma ProviderOrderIff(effective: seq<string>, family: seq<string>, builtin: seq<string>, personal: seq<string>,
                         requested: seq<string>, x: string, y: string)
    requires NoRepeats(effective) && (forall v :: v in effective <==> v in builtin || v in personal)
    requires x != y && x in effective && y in effective
    ensures Before(ProviderOrder(effective, family, builtin, personal, requested), x, y) <==>
      if x in family then y in family ==> Before(effective, x, y)
      else y !in family && Ranked(builtin, personal, requested, x, y)
  {
    hide Keep, Drop, OwnedOrder, Before, Ranked;
    var r := ProviderOrder(effective, family, builtin, personal, requested);
    ProviderOrderIsPermutation(effective, family, builtin, personal, requested);
    if x in family {
      FamilyIsInFront(effective, family, builtin, personal, requested, x, y);
    } else if y in family {
      FamilyIsInFront(effective, family, builtin, personal, requested, y, x);
      NotBothWays(r, y, x);
    } else {
      OthersAreRanked(effective, family, builtin, personal, requested, x, y);
    }
  }

  lemma EitherWay(values: seq<string>, x: string, y: string)
    requires x != y && x in values && y in values
    ensures Before(values, x, y) || Before(values, y, x)
  {
    var i :| 0 <= i < |values| && values[i] == x;
    var j :| 0 <= j < |values| && values[j] == y;
  }

  lemma FamilyIsInFront(effective: seq<string>, family: seq<string>, builtin: seq<string>, personal: seq<string>,
                        requested: seq<string>, x: string, y: string)
    requires NoRepeats(effective) && (forall v :: v in effective <==> v in builtin || v in personal)
    requires x != y && x in effective && y in effective && x in family
    ensures Before(ProviderOrder(effective, family, builtin, personal, requested), x, y) <==> (y in family ==> Before(effective, x, y))
  {
    hide Keep, Drop, OwnedOrder, Before;
    var r := ProviderOrder(effective, family, builtin, personal, requested);
    var familyIds := Keep(effective, family);
    KeepKeeps(effective, family);
    ProviderOrderIsPermutation(effective, family, builtin, personal, requested);
    if y in family {
      EitherWay(effective, x, y);
      if Before(effective, x, y) {
        KeepKeepsOrder(effective, family, x, y);
        BeforeInLonger(familyIds, r, x, y);
      } else {
        KeepKeepsOrder(effective, family, y, x);
        BeforeInLonger(familyIds, r, y, x);
        NotBothWays(r, y, x);
      }
    } else {
      AcrossTheSeam(familyIds, r[|familyIds|..], x, y);
      assert r == familyIds + r[|familyIds|..];
    }
  }

  lemma OthersAreRanked(effective: seq<string>, family: seq<string>, builtin: seq<string>, personal: seq<string>,
                        requested: seq<string>, x: string, y: string)
    requires NoRepeats(effective) && (forall v :: v in effective <==> v in builtin || v in personal)
    requires x != y && x in effective && y in effective && x !in family && y !in family
    ensures Before(ProviderOrder(effective, family, builtin, personal, requested), x, y) <==> Ranked(builtin, personal, requested, x, y)
  {
    hide Keep, Drop, OwnedOrder, Before, Ranked;
    var r, familyIds := ProviderOrder(effective, family, builtin, personal, requested), Keep(effective, family);
    KeepKeeps(effective, family);
    var builtinIds := Drop(builtin, familyIds);
    var personalIds := Drop(Drop(personal, builtinIds), familyIds);
    DropDrops(builtin, familyIds);
    DropDrops(personal, builtinIds);
    DropDrops(Drop(personal, builtinIds), familyIds);
    var rest := OwnedOrder(builtinIds, personalIds, requested);
    OwnedOrderIff(builtinIds, personalIds, requested, x, y);
    RankedAlike(familyIds, builtin, personal, requested, x, y);
    OwnedOrderIsPermutation(builtinIds, personalIds, requested);
    ProviderOrderIsPermutation(effective, family, builtin, personal, requested);
    EitherWay(rest, x, y);
    if Before(rest, x, y) {
      BeforeBehind(familyIds, rest, x, y);
    } else {
      BeforeBehind(familyIds, rest, y, x);
      NotBothWays(r, y, x);
    }
  }

  lemma RankedAlike(familyIds: seq<string>, builtin: seq<string>, personal: seq<string>, requested: seq<string>, x: string, y: string)
    requires x !in familyIds && y !in familyIds
    ensures var builtinIds := Drop(builtin, familyIds);
      Ranked(builtinIds, Drop(Drop(personal, builtinIds), familyIds), requested, x, y) <==> Ranked(builtin, personal, requested, x, y)
  {
    hide Drop, ComesFirst;
    var builtinIds := Drop(builtin, familyIds);
    DropDrops(builtin, familyIds);
    DropKeepsFirst(builtin, familyIds, x, y);
    if x !in builtin && y !in builtin {
      DropKeepsFirst(personal, builtinIds, x, y);
      DropKeepsFirst(Drop(personal, builtinIds), familyIds, x, y);
    }
  }

  /** uniqueInOrder. */
  method UniqueInOrder(values: seq<string>) returns (result: seq<string>)
    ensures result == Unique(values)
  {
    result := [];
    var seen: set<string> := {};
    for i := 0 to |values|
      invariant result == Unique(values[..i])
      invariant forall v :: v in seen <==> v in result
    {
      assert values[..i + 1] == values[..i] + [values[i]];
      UniqueOneMore(values[..i], values[i]);
      if values[i] !in seen {
        seen := seen + {values[i]};
        result := result + [values[i]];
      }
    }
    assert values[..|values|] == values;
  }

  method ResolveOwnedOrder(builtinIds: seq<string>, personalIds: seq<string>, requested: seq<string>)
      returns (r: seq<string>)
    ensures r == OwnedOrder(builtinIds, personalIds, requested)
  {
    var builtin := UniqueInOrder(builtinIds);
    var uniquePersonal := UniqueInOrder(personalIds);
    var personal := Drop(uniquePersonal, builtin);
    var uniqueRequested := UniqueInOrder(requested);
    var ordered := Keep(uniqueRequested, builtin + personal);
    r := Drop(builtin, ordered) + ordered + Drop(personal, ordered);
  }
}
