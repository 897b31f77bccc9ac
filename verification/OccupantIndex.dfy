/** The airborne-occupant index: cells are never cleared, only stamped. */
module OccupantIndex {
  import opened Words

  const SLOTS: nat := 6

  /** The facts about a unit that the rebuild said. */
  datatype Unit = Unit(
    hasType: bool, airborne: bool, alive: bool, dying: bool, carried: bool, offMap: bool,
    index: U16, x: int, z: int, width: int, height: int)

  datatype Cell = Cell(stamp: U32, slot: seq<U16>)

  predicate Qualifies(u: Unit, hitCount: nat) {
    u.hasType && u.airborne && u.alive && !u.dying && !u.carried && !u.offMap && 0 < u.index < hitCount
  }

  /** The unit's footprint covers the cell in row z and column x (of the map: the footprint is clamped to it). */
  predicate Covers(u: Unit, z: int, x: int) {
    u.x <= x < u.x + u.width && u.z <= z < u.z + u.height
  }

  // ---- The meaning of a cell: the first six distinct units

  function Insert(list: seq<U16>, u: U16): seq<U16> {
    if u in list || |list| >= SLOTS then list else list + [u]
  }

  /** Keep first occurrences only. */
  function Distinct(list: seq<U16>): (d: seq<U16>)
    ensures forall v :: v in d <==> v in list
    ensures forall i, j :: 0 <= i < j < |d| ==> d[i] != d[j]
    ensures |d| <= |list|
  {
    if list == [] then []
    else
      var front, last := list[..|list| - 1], list[|list| - 1];
      assert forall v :: v in list <==> v in front || v == last;
      if last in Distinct(front) then Distinct(front) else Distinct(front) + [last]
  }

  function FirstSix(list: seq<U16>): seq<U16> {
    var d := Distinct(list);
    if |d| <= SLOTS then d else d[..SLOTS]
  }

  /** Indices of the qualifying units that cover the cell, in unit-array order. */
  function Covering(units: seq<Unit>, hitCount: nat, z: int, x: int): seq<U16> {
    if units == [] then []
    else
      var u := units[|units| - 1];
      Covering(units[..|units| - 1], hitCount, z, x)
      + if Qualifies(u, hitCount) && Covers(u, z, x) then [u.index] else []
  }

  /** A unit is among those covering a cell exactly when its footprint lies over the cell and it flies, alive, on
      its own, on the map, and within the table of units. */
  lemma {:induction false} CoveringMeaning(units: seq<Unit>, hitCount: nat, z: int, x: int, v: U16)
    ensures v in Covering(units, hitCount, z, x) <==>
      exists i :: 0 <= i < |units| && var u := units[i];
        && u.index == v && 0 < v < hitCount
        && u.hasType && u.airborne && u.alive && !u.dying && !u.carried && !u.offMap
        && 0 <= x - u.x < u.width && 0 <= z - u.z < u.height
  {
    if |units| > 0 {
      var front, last := units[..|units| - 1], units[|units| - 1];
      CoveringMeaning(front, hitCount, z, x, v);
      assert forall i :: 0 <= i < |front| ==> front[i] == units[i];
      assert last == units[|units| - 1];
    }
  }

  /** The engine's own two slots are named first, whatever the index says; the index names nobody beyond its six
      slots, nobody on another map, and nobody outside its cells. */
  lemma CandidatesOf(p: Place, said: seq<seq<U16>>, selector: int)
    ensures Candidate(p, said, 0) == p.ground && Candidate(p, said, 1) == p.air
    ensures selector < 0 || selector >= 2 + SLOTS ==> Candidate(p, said, selector) == 0
    ensures selector >= 2 && (!p.sameMap || p.cell < 0 || p.cell >= |said|) ==> Candidate(p, said, selector) == 0
    ensures selector >= 2 && Candidate(p, said, selector) != 0 ==>
      p.sameMap && 0 <= p.cell < |said| && Candidate(p, said, selector) in said[p.cell]
  {
  }

  /** Inserting one by one is taking the first six distinct. */
  lemma InsertIsFirstSix(list: seq<U16>, u: U16)
    ensures Insert(FirstSix(list), u) == FirstSix(list + [u])
  {
    assert (list + [u])[..|list|] == list;
    var d := Distinct(list);
    if |d| > SLOTS {
      assert Distinct(list + [u])[..SLOTS] == d[..SLOTS];
    }
  }

  // ---- Ordinals of cells

  function At(width: nat, z: nat, x: nat): nat {
    z * width + x
  }

  lemma AtBound(width: nat, height: nat, z: nat, x: nat)
    requires z < height && x < width
    ensures At(width, z, x) < width * height
  {
    assert (z + 1) * width <= height * width;
  }

  lemma RowOrder(width: nat, z: nat, x: nat, z': nat, x': nat)
    requires x < width && z < z'
    ensures At(width, z, x) < At(width, z', x')
  {
    assert (z + 1) * width <= z' * width;
  }

  lemma AtInjective(width: nat, z: nat, x: nat, z': nat, x': nat)
    requires x < width && x' < width && At(width, z, x) == At(width, z', x')
    ensures z == z' && x == x'
  {
    if z < z' {
      RowOrder(width, z, x, z', x');
    } else if z' < z {
      RowOrder(width, z', x', z, x);
    }
  }

  /** Leading occupied slots. */
  function Used(slot: seq<U16>): (n: nat)
    ensures n <= |slot|
    ensures forall i :: 0 <= i < n ==> slot[i] != 0
    ensures n < |slot| ==> slot[n] == 0
  {
    if slot == [] || slot[0] == 0 then 0 else 1 + Used(slot[1..])
  }

  lemma UsedIs(slot: seq<U16>, n: nat)
    requires n <= |slot| && (forall i :: 0 <= i < n ==> slot[i] != 0) && (n < |slot| ==> slot[n] == 0)
    ensures Used(slot) == n
  {
  }

  /** What a cell says at a given stamp. */
  function ReadCell(cell: Cell, stamp: U32): seq<U16> {
    if cell.stamp == stamp then cell.slot[..Used(cell.slot)] else []
  }

  function ReadAll(cells: seq<Cell>, stamp: U32): (r: seq<seq<U16>>)
    ensures |r| == |cells| && forall c :: 0 <= c < |cells| ==> r[c] == ReadCell(cells[c], stamp)
  {
    seq(|cells|, c requires 0 <= c < |cells| => ReadCell(cells[c], stamp))
  }

  /** Slots fill from the front. */
  ghost predicate CellOk(cell: Cell) {
    && |cell.slot| == SLOTS
    && forall i, j :: 0 <= i < j < SLOTS && cell.slot[i] == 0 ==> cell.slot[j] == 0
  }

  /** Where a look goes: what the engine's two slots hold, and the cell's ordinal. */
  datatype Place = Place(ground: U16, air: U16, sameMap: bool, cell: int)

  /** The unit that a slot selector names at a place, zero for none: the engine's own two slots, then the
      overflow slots of the cell, as long as the engine's cells are still the indexed ones. */
  function Candidate(p: Place, said: seq<seq<U16>>, selector: int): U16 {
    var overflow := if p.sameMap && 0 <= p.cell < |said| then said[p.cell] else [];
    if selector == 0 then p.ground
    else if selector == 1 then p.air
    else if 0 <= selector - 2 < SLOTS && selector - 2 < |overflow| then overflow[selector - 2]
    else 0
  }

  class Index {
    var cells: array<Cell>
    var width: nat
    var height: nat
    var stamp: U32
    var saturations: nat
    /** Units indexed by the last rebuild. */
    var airUnits: nat

    ghost predicate Valid()
      reads this`cells, this`width, this`height, cells
    {
      && width > 0 && height > 0 && cells.Length == width * height
      && forall c :: 0 <= c < cells.Length ==> CellOk(cells[c])
    }

    /** What every cell says. */
    ghost function Reads(): (r: seq<seq<U16>>)
      reads this`cells, this`stamp, cells
      ensures |r| == cells.Length
      ensures forall c :: 0 <= c < cells.Length ==> r[c] == ReadCell(cells[c], stamp)
    {
      ReadAll(cells[..], stamp)
    }

    /** No cell carries a stamp from before the counter last wrapped. */
    ghost predicate Unwrapped()
      reads this`cells, this`stamp, cells
    {
      forall c :: 0 <= c < cells.Length ==> cells[c].stamp <= stamp
    }

    /** What the overflow slots offer, cell by cell: nothing if nothing was airborne. */
    ghost function Said(): seq<seq<U16>>
      reads this`cells, this`stamp, this`airUnits, cells
    {
      if airUnits == 0 then [] else Reads()
    }

    /** The first half of `GetOccupantIndex`: the unit that a slot selector names at a cell. */
    method Lookup(place: Place, selector: int) returns (index: U16)
      requires Valid()
      ensures index == Candidate(place, Said(), selector)
    {
      if selector == 0 {
        return place.ground;
      }
      if selector == 1 {
        return place.air;
      }
      if airUnits == 0 {
        return 0;
      }
      var k := selector - 2;
      if k < 0 || k >= SLOTS || !place.sameMap || place.cell < 0 || place.cell >= cells.Length {
        return 0;
      }
      var cell := cells[place.cell];
      if cell.stamp != stamp {
        return 0;
      }
      return cell.slot[k];
    }

    /** `EnsureIndex`, when a new map needs a new index. */
    constructor (width: nat, height: nat)
      requires width > 0 && height > 0
      ensures Valid() && Unwrapped() && fresh(cells) && this.width == width && this.height == height && saturations == 0
      ensures forall c :: 0 <= c < cells.Length ==> Reads()[c] == []
    {
      this.width, this.height := width, height;
      AtBound(width, height, 0, 0);
      cells := new Cell[width * height](i => Cell(0, [0, 0, 0, 0, 0, 0]));
      stamp, saturations, airUnits := 0, 0, 0;
    }

    /** The body of `IndexUnit` for one cell. */
    method InsertAt(c: nat, u: U16)
      requires Valid() && c < cells.Length && u != 0
      modifies cells, this`saturations
      ensures Valid() && (old(Unwrapped()) ==> Unwrapped())
      ensures Reads() == old(Reads())[c := Insert(old(Reads())[c], u)]
      ensures saturations == old(saturations) +
        if u !in old(Reads())[c] && |old(Reads())[c]| == SLOTS then 1 else 0
    {
      var cell := cells[c];
      if cell.stamp != stamp {
        cell := Cell(stamp, [0, 0, 0, 0, 0, 0]);
        UsedIs(cell.slot, 0);
      }
      assert ReadCell(cell, stamp) == Reads()[c];
      var full;
      cell, full := InsertInto(cell, u, stamp);
      if full {
        saturations := saturations + 1;
      }
      hide ReadCell, Insert;
      cells[c] := cell;
    }

    /** The slot loop of `IndexUnit`. */
    static method InsertInto(before: Cell, u: U16, stamp: U32) returns (cell: Cell, full: bool)
      requires CellOk(before) && before.stamp == stamp && u != 0
      ensures CellOk(cell) && cell.stamp == stamp
      ensures ReadCell(cell, stamp) == Insert(ReadCell(before, stamp), u)
      ensures full <==> u !in ReadCell(before, stamp) && |ReadCell(before, stamp)| == SLOTS
    {
      cell, full := before, false;
      ghost var used := Used(before.slot);
      var i := 0;
      while i < SLOTS && cell.slot[i] != 0 && cell.slot[i] != u
        invariant 0 <= i <= used
        invariant u !in before.slot[..i]
      {
        i := i + 1;
      }
      if i == SLOTS {
        full := true;
      } else if cell.slot[i] == 0 {
        cell := cell.(slot := cell.slot[i := u]);
        UsedIs(cell.slot, i + 1);
        assert cell.slot[..i + 1] == before.slot[..i] + [u];
      } else {
        assert before.slot[i] in before.slot[..used];
      }
    }

    /** `IndexUnit`: every cell of the clamped footprint gains the unit, no other cell changes; each covered
        cell that did not name the unit before is an insertion or a saturation. */
    method IndexUnit(u: Unit)
      requires Valid() && u.index != 0
      modifies cells, this`saturations
      ensures Valid() && (old(Unwrapped()) ==> Unwrapped())
      ensures PartialOn(old(Reads()), Reads(), u, width, height, height, 0)
      ensures Absent(old(Reads()), u.index) ==>
        Total(Reads()) + saturations == Total(old(Reads())) + old(saturations) + ClampedArea(u, width, height)
    {
      hide PartialOn, Absent, Total, ClampedArea, Unwrapped;
      ghost var before := Reads();
      if u.width <= 0 || u.height <= 0 {
        EmptyFootprint(before, u, width, height);
        return;
      }
      var x0, z0 := if u.x < 0 then 0 else u.x, if u.z < 0 then 0 else u.z;
      var x1 := if u.x + u.width > width then width else u.x + u.width;
      var z1 := if u.z + u.height > height then height else u.z + u.height;
      ghost var perRow := Span(x0, x1);
      Untouched(before, u, width, height, z0, x0);
      var z := z0;
      while z < z1
        invariant z0 <= z && (z <= z1 || z == z0) && Valid() && (old(Unwrapped()) ==> Unwrapped())
        invariant PartialOn(before, Reads(), u, width, height, z, x0)
        invariant Absent(before, u.index) ==>
          Total(Reads()) + saturations == Total(before) + old(saturations) + (z - z0) * perRow
      {
        IndexRow(u, z, x0, x1, before);
        RowDone(before, Reads(), u, width, height, z, if x1 > x0 then x1 else x0, x0);
        OneMoreRow(z - z0, perRow);
        z := z + 1;
      }
      RowsDone(before, Reads(), u, width, height, z, x0);
      AreaOfRows(u, width, height, z - z0);
    }

    /** The inner loop of `IndexUnit`: one row of the clamped footprint. */
    method IndexRow(u: Unit, z: nat, x0: nat, x1: int, ghost before: seq<seq<U16>>)
      requires Valid() && u.index != 0 && z < height && x1 <= width
      requires u.z <= z < u.z + u.height && u.x <= x0 && x1 <= u.x + u.width
      requires PartialOn(before, Reads(), u, width, height, z, x0)
      modifies cells, this`saturations
      ensures Valid() && (old(Unwrapped()) ==> Unwrapped())
      ensures PartialOn(before, Reads(), u, width, height, z, if x1 > x0 then x1 else x0)
      ensures Absent(before, u.index) ==>
        Total(Reads()) + saturations == Total(old(Reads())) + old(saturations) + Span(x0, x1)
    {
      hide Total, Unwrapped, ReadAll, PartialOn, Absent, At, Insert;
      var x := x0;
      while x < x1
        invariant x0 <= x && (x <= x1 || x == x0) && Valid() && (old(Unwrapped()) ==> Unwrapped())
        invariant PartialOn(before, Reads(), u, width, height, z, x)
        invariant Absent(before, u.index) ==>
          Total(Reads()) + saturations == Total(old(Reads())) + old(saturations) + (x - x0)
      {
        ghost var said := Reads();
        var c := At(width, z, x);
        NotYetHere(before, said, u, width, height, z, x);
        InsertAt(c, u.index);
        PartialStep(before, said, u, width, height, z, x);
        TotalInsert(said, c, u.index);
        x := x + 1;
      }
    }

    /** The rebuild in `OnGameTick`.  Unless some cell still carries the very stamp drawn, which takes
        2^32 - 1 rebuilds of one index, cells and overflow slots say what a rebuild from scratch would. */
    method Rebuild(units: seq<Unit>, hitCount: nat)
      requires Valid()
      modifies cells, this`stamp, this`saturations, this`airUnits
      ensures Valid() && stamp == if old(stamp) == 0xFFFF_FFFF then 1 else old(stamp) + 1
      ensures old(Unwrapped()) && old(stamp) < 0xFFFF_FFFF ==> Unwrapped()
      ensures old(Unused(if stamp == 0xFFFF_FFFF then 1 else stamp + 1)) ==>
        && Holds(Reads(), units, hitCount, width, height)
        && (airUnits == 0 ==> forall c :: 0 <= c < |Reads()| ==> Reads()[c] == [])
        && (DistinctIndices(units) ==>
              Total(Reads()) + (saturations - old(saturations)) == TotalArea(units, hitCount, width, height))
    {
      stamp := if stamp == 0xFFFF_FFFF then 1 else stamp + 1;
      ghost var unused := old(Unused(if stamp == 0xFFFF_FFFF then 1 else stamp + 1));
      assert units[..0] == [] && units[..|units|] == units;
      if unused {
        assert forall c :: 0 <= c < cells.Length ==> Reads()[c] == [];
        HoldsNothing(Reads(), units, hitCount, width, height);
      }
      var count := IndexAll(units, hitCount, unused, saturations);
      airUnits := count;
      hide Total, TotalArea, DistinctIndices, Qualifies, Holds, ReadAll, CellOk;
      if unused && count == 0 {
        HoldsEmpty(Reads(), units, hitCount, width, height);
      }
    }

    /** After a clean rebuild the overflow selectors name, at every cell, the first six distinct covering
        units, the k-th through selector 2 + k. */
    lemma SelectorsNameCovering(units: seq<Unit>, hitCount: nat, z: nat, x: nat, p: Place, k: nat)
      requires p.sameMap && p.cell == At(width, z, x)
      requires Valid() && z < height && x < width && k < SLOTS
      requires Holds(Reads(), units, hitCount, width, height)
      requires airUnits == 0 ==> forall c :: 0 <= c < |Reads()| ==> Reads()[c] == []
      ensures var list := FirstSix(Covering(units, hitCount, z, x));
        Candidate(p, Said(), 2 + k) == if k < |list| then list[k] else 0
    {
      AtBound(width, height, z, x);
    }

    /** The loop over the unit array. */
    method IndexAll(units: seq<Unit>, hitCount: nat, ghost unused: bool, ghost before: nat) returns (count: nat)
      requires Valid() && (unused ==> Indexed(units, 0, hitCount, before))
      modifies cells, this`saturations
      ensures Valid() && (old(Unwrapped()) ==> Unwrapped())
      ensures unused ==> Indexed(units, |units|, hitCount, before)
      ensures count == 0 ==> forall k :: 0 <= k < |units| ==> !Qualifies(units[k], hitCount)
    {
      hide Indexed, Qualifies, Unwrapped, Valid;
      count := 0;
      for n := 0 to |units|
        invariant Valid() && (old(Unwrapped()) ==> Unwrapped())
        invariant unused ==> Indexed(units, n, hitCount, before)
        invariant count == 0 ==> forall k :: 0 <= k < n ==> !Qualifies(units[k], hitCount)
      {
        var qualified := IndexNext(units, n, hitCount, unused, before);
        count := if qualified then count + 1 else count;
      }
    }

    /** The first n units are in the index, and accounted for. */
    ghost predicate Indexed(units: seq<Unit>, n: nat, hitCount: nat, before: nat)
      requires n <= |units|
      reads this`cells, this`stamp, this`width, this`height, this`saturations, cells
    {
      && Holds(Reads(), units[..n], hitCount, width, height)
      && (DistinctIndices(units) ==> Total(Reads()) + (saturations - before) == TotalArea(units[..n], hitCount, width, height))
    }

    /** One unit of the rebuild. */
    method IndexNext(units: seq<Unit>, n: nat, hitCount: nat, ghost unused: bool, ghost before: nat) returns (qualified: bool)
      requires Valid() && n < |units| && (unused ==> Indexed(units, n, hitCount, before))
      modifies cells, this`saturations
      ensures Valid() && (old(Unwrapped()) ==> Unwrapped())
      ensures qualified <==> Qualifies(units[n], hitCount)
      ensures unused ==> Indexed(units, n + 1, hitCount, before)
    {
      var u := units[n];
      qualified := Qualifies(u, hitCount);
      assert units[..n + 1][..n] == units[..n];
      ghost var said := Reads();
      if qualified {
        if unused && DistinctIndices(units) {
          NotYetThere(said, units, n, hitCount, width, height);
        }
        IndexUnit(u);
      }
      if unused {
        HoldsStep(said, Reads(), units, n, hitCount, width, height);
      }
    }

    /** No cell carries the stamp. */
    ghost predicate Unused(stamp: U32)
      reads this`cells, cells
    {
      forall c :: 0 <= c < cells.Length ==> cells[c].stamp != stamp
    }
  }

  lemma HoldsNothing(said: seq<seq<U16>>, units: seq<Unit>, hitCount: nat, width: nat, height: nat)
    requires |said| == width * height && forall c :: 0 <= c < |said| ==> said[c] == []
    ensures Holds(said, units[..0], hitCount, width, height) && Total(said) == TotalArea(units[..0], hitCount, width, height) == 0
  {
    AllBounds(width, height);
    TotalNothing(said);
  }

  lemma HoldsEmpty(said: seq<seq<U16>>, units: seq<Unit>, hitCount: nat, width: nat, height: nat)
    requires width > 0 && Holds(said, units, hitCount, width, height)
    requires forall k :: 0 <= k < |units| ==> !Qualifies(units[k], hitCount)
    ensures forall c :: 0 <= c < |said| ==> said[c] == []
  {
    forall c | 0 <= c < |said| ensures said[c] == [] {
      var z, x := Coordinates(width, height, c);
      CoversNothing(units, hitCount, z, x);
    }
  }

  lemma {:induction false} CoversNothing(units: seq<Unit>, hitCount: nat, z: int, x: int)
    requires forall k :: 0 <= k < |units| ==> !Qualifies(units[k], hitCount)
    ensures Covering(units, hitCount, z, x) == []
  {
    if |units| > 0 {
      CoversNothing(units[..|units| - 1], hitCount, z, x);
    }
  }

  // ---- Parts of a footprint

  /** Rows before z, and row z up to column x, have gained the unit where it covers them. */
  ghost predicate PartialOn(before: seq<seq<U16>>, now: seq<seq<U16>>, u: Unit, width: nat, height: nat, z: int, x: int) {
    && |before| == |now| == width * height
    && forall z': nat, x': nat :: z' < height && x' < width ==>
         At(width, z', x') < |now| &&
         now[At(width, z', x')] ==
           (if Covers(u, z', x') && (z' < z || (z' == z && x' < x)) then Insert(before[At(width, z', x')], u.index)
            else before[At(width, z', x')])
  }

  lemma AllBounds(width: nat, height: nat)
    ensures forall z: nat, x: nat :: z < height && x < width ==> At(width, z, x) < width * height
  {
    forall z: nat, x: nat | z < height && x < width ensures At(width, z, x) < width * height {
      AtBound(width, height, z, x);
    }
  }

  lemma Untouched(before: seq<seq<U16>>, u: Unit, width: nat, height: nat, z0: int, x0: int)
    requires |before| == width * height
    requires z0 == if u.z < 0 then 0 else u.z
    requires x0 == if u.x < 0 then 0 else u.x
    ensures PartialOn(before, before, u, width, height, z0, x0)
  {
    AllBounds(width, height);
  }

  lemma EmptyFootprint(before: seq<seq<U16>>, u: Unit, width: nat, height: nat)
    requires |before| == width * height && (u.width <= 0 || u.height <= 0)
    ensures PartialOn(before, before, u, width, height, height, 0) && ClampedArea(u, width, height) == 0
  {
    AllBounds(width, height);
  }

  lemma AreaOfRows(u: Unit, width: nat, height: nat, rows: nat)
    requires u.width > 0 && u.height > 0
    requires rows == Span(if u.z < 0 then 0 else u.z, if u.z + u.height > height then height else u.z + u.height)
    ensures rows * Span(if u.x < 0 then 0 else u.x, if u.x + u.width > width then width else u.x + u.width)
         == ClampedArea(u, width, height)
  {
  }

  lemma NotYetHere(before: seq<seq<U16>>, now: seq<seq<U16>>, u: Unit, width: nat, height: nat, z: nat, x: nat)
    requires PartialOn(before, now, u, width, height, z, x) && z < height && x < width
    ensures At(width, z, x) < |now| == width * height
    ensures Absent(before, u.index) ==> u.index !in now[At(width, z, x)]
  {
    AtBound(width, height, z, x);
  }

  lemma PartialStep(before: seq<seq<U16>>, now: seq<seq<U16>>, u: Unit, width: nat, height: nat, z: nat, x: nat)
    requires PartialOn(before, now, u, width, height, z, x)
    requires z < height && x < width && Covers(u, z, x)
    ensures At(width, z, x) < |now|
    ensures var c := At(width, z, x);
      PartialOn(before, now[c := Insert(now[c], u.index)], u, width, height, z, x + 1)
  {
    forall z': nat, x': nat | z' < height && x' < width && At(width, z', x') == At(width, z, x)
      ensures z' == z && x' == x
    {
      AtInjective(width, z', x', z, x);
    }
  }

  lemma RowDone(before: seq<seq<U16>>, now: seq<seq<U16>>, u: Unit, width: nat, height: nat, z: int, x: int, x0: int)
    requires PartialOn(before, now, u, width, height, z, x)
    requires x >= u.x + u.width || x >= width
    requires x0 == if u.x < 0 then 0 else u.x
    ensures PartialOn(before, now, u, width, height, z + 1, x0)
  {
  }

  lemma RowsDone(before: seq<seq<U16>>, now: seq<seq<U16>>, u: Unit, width: nat, height: nat, z: int, x0: int)
    requires PartialOn(before, now, u, width, height, z, x0)
    requires z >= u.z + u.height || z >= height
    requires x0 == if u.x < 0 then 0 else u.x
    ensures PartialOn(before, now, u, width, height, height, 0)
  {
  }

  // ---- All units

  /** Every cell says what the units seen so far mean for it. */
  ghost predicate Holds(said: seq<seq<U16>>, units: seq<Unit>, hitCount: nat, width: nat, height: nat) {
    && |said| == width * height
    && forall z: nat, x: nat :: z < height && x < width ==>
         At(width, z, x) < |said| && said[At(width, z, x)] == FirstSix(Covering(units, hitCount, z, x))
  }

  lemma HoldsStep(before: seq<seq<U16>>, now: seq<seq<U16>>, units: seq<Unit>, n: nat, hitCount: nat, width: nat, height: nat)
    requires n < |units| && Holds(before, units[..n], hitCount, width, height)
    requires if Qualifies(units[n], hitCount) then PartialOn(before, now, units[n], width, height, height, 0) else now == before
    ensures Holds(now, units[..n + 1], hitCount, width, height)
  {
    assert units[..n + 1][..n] == units[..n];
    forall z: nat, x: nat | z < height && x < width
      ensures At(width, z, x) < |now| && now[At(width, z, x)] == FirstSix(Covering(units[..n + 1], hitCount, z, x))
    {
      var list := Covering(units[..n], hitCount, z, x);
      assert before[At(width, z, x)] == FirstSix(list);
      InsertIsFirstSix(list, units[n].index);
      assert list + [] == list;
    }
  }

  ghost predicate DistinctIndices(units: seq<Unit>) {
    forall i, j :: 0 <= i < j < |units| ==> units[i].index != units[j].index
  }

  /** No cell names u. */
  ghost predicate Absent(said: seq<seq<U16>>, u: U16) {
    forall c :: 0 <= c < |said| ==> u !in said[c]
  }

  lemma {:induction false} CoveringFromUnits(units: seq<Unit>, hitCount: nat, z: int, x: int, v: U16)
    requires v in Covering(units, hitCount, z, x)
    ensures exists i :: 0 <= i < |units| && units[i].index == v
    decreases |units|
  {
    var front := units[..|units| - 1];
    if v in Covering(front, hitCount, z, x) {
      CoveringFromUnits(front, hitCount, z, x, v);
      var i :| 0 <= i < |front| && front[i].index == v;
      assert units[i].index == v;
    } else {
      assert units[|units| - 1].index == v;
    }
  }

  lemma Coordinates(width: nat, height: nat, c: nat) returns (z: nat, x: nat)
    requires width > 0 && c < width * height
    ensures z < height && x < width && At(width, z, x) == c
  {
    z, x := c / width, c % width;
    assert c == z * width + x;
    assert !(z >= height) by {
      assert z >= height ==> z * width >= height * width;
    }
  }

  lemma NotYetThere(said: seq<seq<U16>>, units: seq<Unit>, n: nat, hitCount: nat, width: nat, height: nat)
    requires width > 0 && n < |units| && Holds(said, units[..n], hitCount, width, height) && DistinctIndices(units)
    ensures Absent(said, units[n].index)
  {
    forall c | 0 <= c < |said| ensures units[n].index !in said[c] {
      var z, x := Coordinates(width, height, c);
      var list := Covering(units[..n], hitCount, z, x);
      assert said[c] == FirstSix(list);
      if units[n].index in list {
        CoveringFromUnits(units[..n], hitCount, z, x, units[n].index);
      }
      assert forall v :: v in FirstSix(list) ==> v in Distinct(list);
    }
  }

  // ---- Counting

  function Span(low: int, high: int): nat {
    if high > low then high - low else 0
  }

  /** Cells of the map that the footprint covers. */
  function ClampedArea(u: Unit, width: nat, height: nat): nat {
    if u.width <= 0 || u.height <= 0 then 0
    else
      Span(if u.z < 0 then 0 else u.z, if u.z + u.height > height then height else u.z + u.height)
      * Span(if u.x < 0 then 0 else u.x, if u.x + u.width > width then width else u.x + u.width)
  }

  function TotalArea(units: seq<Unit>, hitCount: nat, width: nat, height: nat): nat {
    if units == [] then 0
    else
      var u := units[|units| - 1];
      TotalArea(units[..|units| - 1], hitCount, width, height)
      + if Qualifies(u, hitCount) then ClampedArea(u, width, height) else 0
  }

  /** All entries of all cells. */
  function Total(said: seq<seq<U16>>): nat {
    if said == [] then 0 else |said[0]| + Total(said[1..])
  }

  lemma OneMoreRow(rows: nat, perRow: nat)
    ensures (rows + 1) * perRow == rows * perRow + perRow
  {
  }

  lemma {:induction false} TotalUpdate(said: seq<seq<U16>>, c: nat, list: seq<U16>)
    requires c < |said|
    ensures Total(said[c := list]) == Total(said) - |said[c]| + |list|
  {
    if c > 0 {
      TotalUpdate(said[1..], c - 1, list);
      assert said[c := list][1..] == said[1..][c - 1 := list];
    } else {
      assert said[0 := list][1..] == said[1..];
    }
  }

  lemma TotalInsert(said: seq<seq<U16>>, c: nat, u: U16)
    requires c < |said|
    ensures u !in said[c] ==>
      Total(said[c := Insert(said[c], u)]) == Total(said) + if |said[c]| >= SLOTS then 0 else 1
  {
    TotalUpdate(said, c, Insert(said[c], u));
  }

  lemma {:induction false} TotalNothing(said: seq<seq<U16>>)
    requires forall c :: 0 <= c < |said| ==> said[c] == []
    ensures Total(said) == 0
  {
    if said != [] {
      TotalNothing(said[1..]);
    }
  }
}
