/** One victim per explosion, under nesting: generations instead of clearing. */
module ExplosionDedup {
  import opened Words
  import opened OccupantIndex

  /** An explosion looks at places through slot selectors, and may set off further explosions while it does. */
  datatype Item = Look(place: Place, selector: int) | Nested(items: seq<Item>)

  // ---- What brackets ought to return

  /** The unit that a look can return at all: present, and inside the dedup table. */
  predicate Hittable(u: int, count: nat) {
    0 < u < count
  }

  /** Units returned by a bracket or by one nested in it, at any depth. */
  function Hit(items: seq<Item>, said: seq<seq<U16>>, count: nat): set<nat> {
    if items == [] then {}
    else
      var front, last := items[..|items| - 1], items[|items| - 1];
      Hit(front, said, count) + match last
        case Nested(inner) => Hit(inner, said, count)
        case Look(p, selector) =>
          var u := Candidate(p, said, selector);
          if Hittable(u, count) then {u as nat} else {}
  }

  /** The units a bracket itself returns, in order. */
  function Returned(items: seq<Item>, said: seq<seq<U16>>, count: nat): seq<nat> {
    if items == [] then []
    else
      var front, last := items[..|items| - 1], items[|items| - 1];
      Returned(front, said, count) + match last
        case Nested(_) => []
        case Look(p, selector) =>
          var u := Candidate(p, said, selector);
          if Hittable(u, count) && u as nat !in Hit(front, said, count) then [u as nat] else []
  }

  /** A bracket returns no unit twice, only units it looked at, and nothing a bracket nested before had returned. */
  lemma {:induction false} ReturnedOnce(items: seq<Item>, said: seq<seq<U16>>, count: nat)
    ensures forall i, j :: 0 <= i < j < |Returned(items, said, count)| ==> Returned(items, said, count)[i] != Returned(items, said, count)[j]
    ensures forall u :: u in Returned(items, said, count) ==> u in Hit(items, said, count)
  {
    if items != [] {
      ReturnedOnce(items[..|items| - 1], said, count);
    }
  }

  /** Every unit in range that a bracket looks at is returned by it, unless one nested inside it, and before
      that look, already returned it. */
  lemma {:induction false} LookedAtIsReturned(items: seq<Item>, said: seq<seq<U16>>, count: nat, k: nat)
    requires k < |items| && items[k].Look? && Hittable(Candidate(items[k].place, said, items[k].selector), count)
    ensures var u: nat := Candidate(items[k].place, said, items[k].selector);
      || u in Returned(items, said, count)
      || exists n :: 0 <= n < k && items[n].Nested? && u in Hit(items[n].items, said, count)
  {
    var front := items[..|items| - 1];
    if k < |front| {
      LookedAtIsReturned(front, said, count, k);
      assert items[k] == front[k];
      assert forall n :: 0 <= n < k ==> front[n] == items[n];
    } else {
      var u: nat := Candidate(items[k].place, said, items[k].selector);
      if u in Hit(front, said, count) {
        HitBy(front, said, count, u);
        assert forall n :: 0 <= n < |front| ==> front[n] == items[n];
      }
    }
  }

  lemma {:induction false} HitBy(items: seq<Item>, said: seq<seq<U16>>, count: nat, u: nat)
    requires u in Hit(items, said, count)
    ensures u in Returned(items, said, count) || exists n :: 0 <= n < |items| && items[n].Nested? && u in Hit(items[n].items, said, count)
  {
    var front, last := items[..|items| - 1], items[|items| - 1];
    if u in Hit(front, said, count) {
      HitBy(front, said, count, u);
      assert forall n :: 0 <= n < |front| ==> front[n] == items[n];
    } else if last.Nested? {
      assert items[|items| - 1].Nested? && u in Hit(items[|items| - 1].items, said, count);
    }
  }

  /** Nesting depth and length, for termination. */
  function Size(items: seq<Item>): nat {
    if items == [] then 0
    else
      Size(items[..|items| - 1]) + 1 + match items[|items| - 1]
        case Nested(inner) => Size(inner)
        case Look(_, _) => 0
  }

  lemma {:induction false} SizeOfNested(items: seq<Item>, k: nat)
    requires k < |items| && items[k].Nested?
    ensures Size(items[k].items) < Size(items)
  {
    if k < |items| - 1 {
      SizeOfNested(items[..|items| - 1], k);
    }
  }

  function Brackets(items: seq<Item>): nat {
    if items == [] then 0
    else
      Brackets(items[..|items| - 1]) + match items[|items| - 1]
        case Nested(inner) => 1 + Brackets(inner)
        case Look(_, _) => 0
  }

  lemma {:induction false} BracketsSplit(items: seq<Item>, k: nat)
    requires k < |items|
    ensures Brackets(items[..k + 1]) == Brackets(items[..k]) + (match items[k] case Nested(inner) => 1 + Brackets(inner) case Look(_, _) => 0)
    ensures Brackets(items[..k + 1]) <= Brackets(items)
    decreases |items|
  {
    assert items[..k + 1][..k] == items[..k];
    if k + 1 < |items| {
      var front := items[..|items| - 1];
      BracketsSplit(front, k);
      assert front[..k + 1] == items[..k + 1];
    } else {
      assert items[..k + 1] == items;
    }
  }

  // ---- The implementation: one mark per unit, one generation per bracket

  class HitTable {
    const marks: array<U32>
    var counter: U32
    var current: U32

    /** The generation counter has not wrapped since the table was made. */
    ghost predicate Unwrapped()
      reads this, marks
    {
      current <= counter && forall u :: 0 <= u < marks.Length ==> marks[u] <= counter
    }

    constructor (count: nat)
      ensures Unwrapped() && fresh(marks) && marks.Length == count && current == 0
    {
      marks := new U32[count](i => 0);
      counter, current := 0, 0;
    }

    /** `GetOccupantIndex`: the unit at the place, unless the running bracket or a later one returned it. */
    method GetOccupantIndex(occupants: Index, place: Place, selector: int) returns (index: U16)
      requires occupants.Valid()
      modifies marks
      ensures old(Unwrapped()) ==> Unwrapped()
      ensures var u := Candidate(place, occupants.Said(), selector);
        if !Hittable(u, marks.Length) then index == 0 && marks[..] == old(marks[..])
        else if current == 0 then index == u && marks[..] == old(marks[..])
        else if old(marks[u]) >= current then index == 0 && marks[..] == old(marks[..])
        else index == u && marks[..] == old(marks[..])[u := current]
    {
      index := occupants.Lookup(place, selector);
      if index == 0 || index >= marks.Length {
        return 0;
      }
      if current == 0 {
        return index;
      }
      if marks[index] >= current {
        return 0;
      }
      marks[index] := current;
    }

    /** `AreaDamageWrapper` around an explosion.  Unless the generation counter wraps inside, the bracket
        returns what it ought to, and afterwards exactly the units hit inside carry newer marks than before. */
    method Bracket(items: seq<Item>, occupants: Index) returns (victims: seq<nat>)
      requires occupants.Valid()
      modifies this, marks
      ensures current == old(current)
      ensures old(Unwrapped()) && old(counter) + 1 + Brackets(items) <= 0xFFFF_FFFF ==>
        && Unwrapped()
        && counter == old(counter) + 1 + Brackets(items)
        && victims == Returned(items, occupants.Said(), marks.Length)
        && forall u :: 0 <= u < marks.Length ==>
             if u in Hit(items, occupants.Said(), marks.Length) then marks[u] > old(counter) else marks[u] == old(marks[u])
      decreases Size(items)
    {
      ghost var fits := Unwrapped() && counter + 1 + Brackets(items) <= 0xFFFF_FFFF;
      ghost var said := occupants.Said();
      var saved := current;
      counter := if counter == 0xFFFF_FFFF then 1 else counter + 1;
      current := counter;
      victims := [];
      for k := 0 to |items|
        invariant fits ==>
          && Unwrapped() && current == old(counter) + 1
          && counter == old(counter) + 1 + Brackets(items[..k])
          && victims == Returned(items[..k], said, marks.Length)
        invariant fits ==> forall u :: 0 <= u < marks.Length ==>
          if u in Hit(items[..k], said, marks.Length) then marks[u] >= current else marks[u] == old(marks[u])
      {
        assert items[..k + 1][..k] == items[..k];
        BracketsSplit(items, k);
        match items[k] {
          case Nested(inner) =>
            SizeOfNested(items, k);
            var ignored := Bracket(inner, occupants);
          case Look(place, selector) =>
            var index := GetOccupantIndex(occupants, place, selector);
            if index != 0 {
              victims := victims + [index as nat];
            }
        }
      }
      assert items[..|items|] == items;
      current := saved;
    }
  }
}
